# NativeProbe core, modelled in Dafny

NativeProbe is a network traffic analysis tool: a Flask backend that captures packets, dissects their headers, collects NetFlow/IPFIX/sFlow exports and runs anomaly rules over the stored traffic, plus browser controllers that shape the JSON replies into tables and charts. This project models the logic of that core and proves what it promises.

The modules follow the repository's files:

- `Common`, `Wire`, `Sorting`, `Grouping` — shared vocabulary: Python/JavaScript results and exceptions (`Result`, `Fault`), decimal text and its parse, `struct.unpack`/`struct.pack` in network byte order over format strings such as `!HHIIIIBBH`, `socket.inet_ntoa`, `binascii.hexlify` and the colon-separated MAC text, a stable sort (Python `list.sort`, JavaScript `Array.prototype.sort`), and the dict-accumulation and `GROUP BY` sums the routes rely on.
- `ProtocolDissection` (utils/protocol_dissection.py) — the protocol-number and port tables, the Ethernet II, IPv4, TCP and UDP header parsers, and the TCP flag string and its description.
- `FlowAnalysis` (utils/flow_analysis.py) — the dispatch on the NetFlow version word, the Cisco NetFlow v5 header and 48-byte records, the NetFlow v9 header (section 5.1 of RFC 3954), the IPFIX message header (section 3.1 of RFC 7011), the sFlow version word, the FlowRecord rows a v5 packet commits (class `FlowStore`), and the collector's start/stop guard (class `FlowCollector`).
- `PacketCapture` (utils/packet_capture.py) — the interface list, the Scapy and PyShark packet parsers, the per-capture buffer that `packet_callback` fills and `save_packets_to_db` flushes, stopping a capture, and the packet detail view (classes `CaptureRegistry`, `InterfaceTable`).
- `AnomalyDetection` (utils/anomaly_detection.py) — severity banding, the bandwidth, protocol-share, SYN-flood, RST-rate and flow-count rules, duplicate suppression in `create_anomaly_event` (class `AnomalyStore`), and the detector's start/stop guard (class `Detector`).
- `ProtocolRoutes`, `AnomalyRoutes`, `SettingsRoutes` (routes/*.py) — time windows and bucket rounding, per-protocol and per-flag-string aggregation, the time series, anomaly filters, resolution and statistics, and the settings table's upsert, reset and interface refresh (class `SettingsTable`).
- `PageCommon`, `ProtocolPage`, `DashboardPage`, `AnomalyPage`, `PacketPage`, `FlowPage` (static/js/*.js) — the controllers' globals as classes (`Page`, `Dashboard`, the browser timers as `Scheduler`), pagination and its buttons, row numbering, the host:port column, the coloured flag spans, the top-N-plus-"Other" chart shaping, the severity badges and icons, form validation, and the start/stop buttons of a background service.

Database tables are in-memory sequences or maps held by the classes above; query results are inputs. Timestamps are integers (seconds, or milliseconds where a flow's uptime is converted), compared as time.

Some behaviour of the code as written is stated as it is, not as a finding, because it is a consequence of the code rather than a slip in one line:

- `calculate_severity` is defined twice (utils/anomaly_detection.py:296 and :321); the second, one-argument definition rebinds the name, so the three-argument call in the bandwidth rule raises TypeError and no bandwidth anomaly is ever recorded (`AnomalyDetection.BandwidthNeverRecords`).
- `detect_anomalies` passes the sensitivity where the protocol rule expects the current time (utils/anomaly_detection.py:98), so `current_time - timedelta(...)` raises TypeError and the rule reports nothing (`AnomalyDetection.ProtocolRuleNeverRuns`).
- `stop_anomaly_detection` waits at most 5 s for the detector loop (utils/anomaly_detection.py:79), which may be sleeping for up to 300 s (line 52), and then forgets the thread; a `start_anomaly_detection` before that loop wakes clears the stop flag again and starts a second loop, so two loops then run detection passes side by side (`AnomalyDetection.RestartBeforeLoopWakes`).
- The anomaly page script contains a bare HTML fragment outside a template literal (static/js/anomaly_detection.js:482-504), which is a syntax error, so that script never loads in a browser. `AnomalyPage` models its functions as they are written; nothing in it describes what the page does at run time.

`FlowPage.Page` and `AnomalyPage.Page` settle their start/stop buttons with the corrected `finally` of the fourth finding below; `FlowStore.ProcessDatagram` commits NetFlow v5 records with the corrected record formats of the second; the as-written behaviour of both is kept beside them and proved.

## Model

| member | source | states |
|---|---|---|
| `ProtocolDissection.ProtocolTableNames` | utils/protocol_dissection.py:17-27 | every table name is shorter than the "Protocol-" prefix and names only its own number |
| `ProtocolDissection.ProtocolNameInjective` | utils/protocol_dissection.py:71-73 | `get_protocol_name` gives distinct numbers distinct names: the nine table names for their numbers and a "Protocol-<n>" that reads back to n for every other number |
| `ProtocolDissection.ApplicationProtocolListed` | utils/protocol_dissection.py:75-78 | a port in the table is named by its entry whatever the transport, such as DNS for port 53 over TCP and over UDP |
| `ProtocolDissection.ApplicationProtocolFallback` | utils/protocol_dissection.py:79 | an unlisted port is named "<transport>-<port>", and the number reads back |
| `ProtocolDissection.ParseEthernetFrame` | utils/protocol_dissection.py:81-96 | the frame parses exactly when it holds the 14 header bytes, and the ethertype is the big-endian word at bytes 12..13 |
| `ProtocolDissection.EthernetAddresses` | utils/protocol_dissection.py:84-90 | each MAC address is a 17-character text of six lower-case hex pairs joined by ':' that reads back to bytes 0..5 and 6..11 |
| `ProtocolDissection.ParseIPv4Packet` | utils/protocol_dissection.py:98-133 | the header parses exactly when the packet holds 20 bytes |
| `ProtocolDissection.IPv4ShortInput` | utils/protocol_dissection.py:101-114 | a short packet raises, and which error it raises follows the order the fields are read: IndexError, struct.error or the OSError of `inet_ntoa` |
| `ProtocolDissection.IPv4FieldsRecompose` | utils/protocol_dissection.py:101-118 | the version is at most 15 and the IHL a multiple of 4 up to 60, and together they give back byte 0; the 3-bit flags and the 13-bit fragment offset give back the word at bytes 6..7 |
| `ProtocolDissection.IPv4Words` | utils/protocol_dissection.py:101-118 | every header field is read from its offset: version and IHL from the nibbles of byte 0, ToS byte 1, total length, identification and checksum the words at 2, 4 and 10, flags and fragment offset the masked word at 6, TTL and protocol bytes 8 and 9, and the two addresses the dotted quads of bytes 12..15 and 16..19 |
| `ProtocolDissection.IPv4NumericFields` | utils/protocol_dissection.py:101-118 | the numeric header fields: version and IHL from the nibbles of byte 0, ToS byte 1, total length, identification and checksum the words at 2, 4 and 10, flags and fragment offset the masked word at 6, TTL and protocol bytes 8 and 9 |
| `ProtocolDissection.FlagsFragmentWord` | utils/protocol_dissection.py:117-118 | the shift-and-mask split of a 16-bit word is exact |
| `ProtocolDissection.FlagLettersSpec` | utils/protocol_dissection.py:162-170 | a table of distinct letters gives one letter per set bit, no other letter, in table order |
| `ProtocolDissection.TcpFlagStringOrder` | utils/protocol_dissection.py:162-170 | `flag_str` lists its letters in the order SAFRPUEC, none twice |
| `ProtocolDissection.TcpFlagTable` | utils/protocol_dissection.py:152-170 | the eight checked bits give eight distinct letters reading SAFRPUEC |
| `ProtocolDissection.TcpFlagStringLetters` | utils/protocol_dissection.py:152-170 | `flag_str` holds S, A, F, R, P, U, E, C exactly when bits 0x02, 0x10, 0x01, 0x04, 0x08, 0x20, 0x40, 0x80 are set |
| `ProtocolDissection.TcpFlagStringLowByte` | utils/protocol_dissection.py:145-170 | the ninth flag bit 0x100, kept in `flags`, never shows in `flag_str` |
| `ProtocolDissection.ParseTcpSegment` | utils/protocol_dissection.py:135-183 | the segment parses exactly when it holds 20 bytes; shorter input raises struct.error |
| `ProtocolDissection.TcpSegmentFields` | utils/protocol_dissection.py:137-145 | the ports are the words at 0 and 2; the offset is a multiple of 4 up to 60 from the top nibble of byte 12; the nine flag bits are the low bit of byte 12 and all of byte 13; the letters come from byte 13 alone |
| `ProtocolDissection.TcpSegmentWords` | utils/protocol_dissection.py:137-145 | the fields are the words at their offsets with the offset and flags masks applied |
| `ProtocolDissection.TcpSegmentNumbers` | utils/protocol_dissection.py:139-149 | sequence and acknowledgement numbers are the 32-bit words at bytes 4 and 8; window, checksum and urgent pointer the 16-bit words at 14, 16 and 18 |
| `ProtocolDissection.OffsetFlagsWord` | utils/protocol_dissection.py:143-145 | where the offset nibble and the nine flag bits of the word sit in its two bytes |
| `ProtocolDissection.ParseUdpSegment` | utils/protocol_dissection.py:185-197 | the header parses exactly when it holds 8 bytes, else raises `struct.error`; ports, length and checksum are the big-endian words at offsets 0, 2, 4 and 6 |
| `ProtocolDissection.KnownLetters` | utils/protocol_dissection.py:284-286 | only letters that have a description are described |
| `ProtocolDissection.TcpFlagsDescription` | utils/protocol_dissection.py:270-288 | the loop returns the descriptions of the known letters in input order joined by ", ", or the fallback text |
| `ProtocolDissection.DescriptionTable` | utils/protocol_dissection.py:272-281 | every description reads "XYZ - ...", XYZ the flag's name, which starts with the flag letter |
| `ProtocolDissection.DescriptionsTrackLetters` | utils/protocol_dissection.py:283-286 | one description per known letter, repeats kept and unknown letters skipped, each starting with its letter |
| `ProtocolDissection.DescribeFlagsUnknownIff` | utils/protocol_dissection.py:288 | the text is 'Unknown flag combination' exactly when no letter is known; otherwise it starts with the first known letter's description |
| `ProtocolDissection.KnownLetterDescription` | utils/protocol_dissection.py:284-286 | the k-th description is the table entry of the k-th known letter |
| `FlowAnalysis.V5HeaderFormat` | utils/flow_analysis.py:122-136 | the v5 header format `!HHIIIIBBH` is 24 bytes, with the engine bytes at 20 and 21 and the sampling interval at 22 |
| `FlowAnalysis.V9HeaderFormat` | utils/flow_analysis.py:190 | the v9 header format `!HHIIII` is 20 bytes |
| `FlowAnalysis.IpfixFormats` | utils/flow_analysis.py:218 | the written IPFIX format `!HHHIIQ` needs 22 bytes, while the 16-byte header of section 3.1 of RFC 7011 is `!HHIII` |
| `FlowAnalysis.SflowFormats` | utils/flow_analysis.py:244-247 | the sFlow version word is 4 bytes and the version-5 header 20 |
| `FlowAnalysis.NetflowRouteOf` | utils/flow_analysis.py:102-116 | the version word at bytes 0..1 sends 5 to the v5 decoder and 9 to the v9 decoder; any other version is only logged, and a packet too short for the word raises and is logged |
| `FlowAnalysis.DecodeV5Header` | utils/flow_analysis.py:122 | the header unpacks exactly when the packet holds 24 bytes and raises struct.error otherwise; the count is a 16-bit word |
| `FlowAnalysis.V5HeaderFields` | utils/flow_analysis.py:122-131 | all nine header fields: version and count are the words at 0 and 2, uptime, seconds, nanoseconds and flow sequence the 32-bit words at 4, 8, 12 and 16, the engine type and id bytes 20 and 21, the sampling interval the word at 22 |
| `FlowAnalysis.RecordFormats` | utils/flow_analysis.py:139-147 | as written the two record formats need 20 and 24 bytes, against slices of 16 and 20 bytes; the corrected formats fit slices of 16 and 24 bytes |
| `FlowAnalysis.V5Record` | utils/flow_analysis.py:134-175 | a record either raises struct.error or gives a NetFlow-v5 row with the arrival time |
| `FlowAnalysis.V5RecordAsWrittenRaises` | utils/flow_analysis.py:139 | as written every record raises struct.error before any field is kept |
| `FlowAnalysis.V5RecordCorrectedOk` | utils/flow_analysis.py:136-147 | with the corrected formats record i decodes exactly when its 40 bytes from 24 + 48i are present |
| `FlowAnalysis.V5RecordOfCorrected` | utils/flow_analysis.py:139-172 | with the corrected formats, a record whose slices hold 16 and 24 bytes decodes; its addresses come from bytes 0..7 of the first slice and its interfaces from bytes 12..15; packets and octets are the 32-bit words at 0 and 4 of the second slice, the start and end times the uptime stamps at 8 and 12 moved onto the header's epoch clock (`unix_secs - (sys_uptime - t) / 1000`, in exact milliseconds); the ports are bytes 16..19 with the source in the high half, the TCP flags byte 21 and the protocol byte 22 |
| `FlowAnalysis.V5FirstPart` | utils/flow_analysis.py:139-144 | the interface fields are the 16-bit words at bytes 12 and 14 of the first part |
| `FlowAnalysis.V5SecondPart` | utils/flow_analysis.py:147-155 | packets, octets, first and last times are the 32-bit words at 0, 4, 8 and 12 of the second part; the port word, the TCP flags and the protocol are bytes 16..19, 21 and 22 |
| `FlowAnalysis.PortPair` | utils/flow_analysis.py:152-153 | `word >> 16` and `word & 0xFFFF` give back the two 16-bit halves, so the word is source * 65536 + destination |
| `FlowAnalysis.RowsUpTo` | utils/flow_analysis.py:134-177 | when the loop finishes, it has produced one row per iteration |
| `FlowAnalysis.RowsUpToSpec` | utils/flow_analysis.py:134-181 | the loop finishes exactly when every iteration decodes, and then row k is what iteration k decoded |
| `FlowAnalysis.V5AsWrittenCommitsNothing` | utils/flow_analysis.py:134-181 | as written a v5 packet commits no FlowRecord: a packet with a record raises and is rolled back, and one with count 0 has no record |
| `FlowAnalysis.V5CorrectedFlowsOk` | utils/flow_analysis.py:122-177 | with the corrected formats a v5 packet commits exactly when its header and every record it counts are present |
| `FlowAnalysis.V5FlowsRows` | utils/flow_analysis.py:134-177 | a v5 packet that decodes commits `count` rows, row k decoded from record k |
| `FlowAnalysis.DecodeV9Header` | utils/flow_analysis.py:190-209 | the v9 header unpacks exactly when the packet holds 20 bytes, else raises struct.error |
| `FlowAnalysis.V9HeaderFields` | utils/flow_analysis.py:190-198 | the version and the logged FlowSet count are the first two words |
| `FlowAnalysis.IpfixHeaderAsWritten` | utils/flow_analysis.py:218 | the written IPFIX unpack can only raise struct.error |
| `FlowAnalysis.IpfixAsWrittenAlwaysRaises` | utils/flow_analysis.py:218-236 | every IPFIX message raises, whatever its length |
| `FlowAnalysis.IpfixHeaderCorrected` | utils/flow_analysis.py:218-223 | the corrected 16-byte header unpacks exactly when the message holds 16 bytes |
| `FlowAnalysis.IpfixCorrectedFields` | utils/flow_analysis.py:219-220 | the corrected header reads the version and the message length from the first two words |
| `FlowAnalysis.DecodeSflow` | utils/flow_analysis.py:238-267 | decoding an sFlow datagram raises only struct.error |
| `FlowAnalysis.DecodeSflowCases` | utils/flow_analysis.py:244-264 | a datagram decodes exactly when its signed version word is present and, for version 5, the 20-byte header too; only version 5 yields a header |
| `FlowAnalysis.FlowKindIgnoresCase` | utils/flow_analysis.py:50-57 | the collector's flow type is compared in lower case, so case never matters |
| `FlowAnalysis.FlowStore.constructor` | utils/flow_analysis.py:158-177 | the FlowRecord table starts empty |
| `FlowAnalysis.FlowStore.AddRows` | utils/flow_analysis.py:134-181 | the loop adds every row of the packet when all iterations decode, and nothing when one raises |
| `FlowAnalysis.FlowStore.ProcessNetflowV5` | utils/flow_analysis.py:118-181 | the table grows by exactly the rows the v5 packet commits |
| `FlowAnalysis.FlowStore.ProcessNetflow` | utils/flow_analysis.py:102-116 | the table grows by exactly the rows a NetFlow packet commits |
| `FlowAnalysis.FlowStore.ProcessDatagram` | utils/flow_analysis.py:50-57 | one datagram of the collector adds NetFlow rows only when the collector runs NetFlow; IPFIX, sFlow and unknown types add none |
| `FlowAnalysis.NetflowStoresOnlyV5` | utils/flow_analysis.py:106-160 | only a packet with version word 5 adds rows, and every row is a NetFlow-v5 row with the arrival time |
| `FlowAnalysis.FlowCollector.constructor` | utils/flow_analysis.py:18-19 | no collector thread and no stop request at start |
| `FlowAnalysis.FlowCollector.StartFlowCollector` | utils/flow_analysis.py:22-81 | start succeeds exactly when no collector thread is alive, and then clears the stop flag and runs with the given type and port; otherwise nothing changes |
| `FlowAnalysis.FlowCollector.LoopExits` | utils/flow_analysis.py:43-74 | the loop ending by itself leaves a thread that is no longer alive and changes nothing else |
| `FlowAnalysis.FlowCollector.StopFlowCollector` | utils/flow_analysis.py:83-100 | stop succeeds exactly when a thread is alive, and then raises the stop flag and forgets the thread; otherwise nothing changes |
| `PacketCapture.GetAvailableInterfaces` | utils/packet_capture.py:35-80 | the list is what `AvailableFrom` allows: never empty, every Scapy name first, in order, then each /sys/class/net entry not yet listed, once, marked up exactly when it has a carrier; only when both sources give nothing is it the single loopback entry, the only entry that says `is_loopback` |
| `PacketCapture.InterfaceTable.constructor` | utils/packet_capture.py:82-89 | the CaptureInterface table starts empty |
| `PacketCapture.InterfaceTable.RefreshInterfaces` | utils/packet_capture.py:82-105 | the interface list is one `AvailableFrom` the two sources allow, and the table becomes exactly one row per listed interface, in order, with '' addresses; the count returned is the number of rows, at least one; only the lone loopback row is marked loopback |
| `PacketCapture.ParseScapyPacket` | utils/packet_capture.py:310-362 | the parsed dict has the capture time, the length and the summary; the protocol follows the layer precedence of `ScapyProtocol`; the addresses are the IP layer's, present exactly with one; the ports are the TCP layer's, else the UDP layer's, present exactly with either; the flag letters are those of the TCP layer's flags, present exactly with one |
| `PacketCapture.ScapyProtocol` | utils/packet_capture.py:318-328 | the protocol is TCP with a TCP layer, else UDP with a UDP layer, else ICMP, else IP with an IP layer, else the packet's own name |
| `PacketCapture.ScapyFlagTable` | utils/packet_capture.py:343-354 | the six checked masks give six distinct letters, in the order SAFRPU |
| `ProtocolDissection.TableLettersPrefix` | utils/packet_capture.py:343-354 | the letters of the first k table entries are the first k letters of the table |
| `PacketCapture.ScapyFlagsLetters` | utils/packet_capture.py:341-356 | the flag string holds each of S, A, F, R, P, U exactly when its mask bit is set, in the order SAFRPU |
| `PacketCapture.ScapyFlagsLowBits` | utils/packet_capture.py:343-354 | ECE, CWR and every higher bit are ignored: only the low six bits matter |
| `PacketCapture.ScapyFlagsAreDissectorFlags` | utils/packet_capture.py:341-356 | the capture parser's letters are the dissector's TCP flag string of the low six bits |
| `PacketCapture.ToInt` | utils/packet_capture.py:269 | `int()` of a field succeeds exactly when the text is a number and raises ValueError otherwise |
| `PacketCapture.ParsePysharkPacket` | utils/packet_capture.py:265-308 | the parser raises ValueError exactly when one of the numeric fields it reads does not parse; otherwise the timestamp and length are the parsed numbers, the protocol is the highest layer, the addresses are the IP layer's, present exactly with one; the ports are the TCP layer's, else the UDP layer's, present exactly with either; the flag letters are those the six TCP flag fields select, present exactly with TCP |
| `PacketCapture.FieldLettersHas` | utils/packet_capture.py:288-302 | a letter is in the flag string exactly when one of its fields holds 1 |
| `PacketCapture.PysharkFlagsLetters` | utils/packet_capture.py:288-302 | the PyShark flag string holds each of S, A, F, R, P, U exactly when its `flags_*` field is 1 |
| `PacketCapture.FieldLettersAgree` | utils/packet_capture.py:288-302 | testing fields that mirror the bits of a flags word builds the same string as testing the bits |
| `PacketCapture.ParsersAgreeOnFlags` | utils/packet_capture.py:288-356 | the PyShark and Scapy parsers build the same flag string for the same TCP header |
| `PacketCapture.ParsePacket` | utils/packet_capture.py:249-263 | an unknown packet kind gives None; a PyShark packet parses exactly when PyShark is loaded and its numbers parse; a Scapy packet parses exactly when Scapy is loaded and PyShark is not, since with PyShark loaded it has `layers`, goes to the PyShark parser and raises; a parsed packet is its parser's result |
| `PacketCapture.RowsOf` | utils/packet_capture.py:373-387 | one Packet row per buffered packet, in buffer order, tagged with the capture id |
| `PacketCapture.CountRowsAppend` | utils/packet_capture.py:394 | counting the rows of a capture distributes over appending rows |
| `PacketCapture.CountRowsOf` | utils/packet_capture.py:394 | the rows written for a buffer count once each for their capture and never for another |
| `PacketCapture.FlushCounts` | utils/packet_capture.py:390-395 | a flush adds exactly the buffered packets to the capture's count and none to any other capture's |
| `PacketCapture.WithCount` | utils/packet_capture.py:397-402 | update_packet_count changes the count of that capture only, and a capture that does not exist is left alone |
| `PacketCapture.WithEnd` | utils/packet_capture.py:404-412 | ending a capture stamps its end time, keeps its count, appends " (Error: ...)" to the description only when there is an error, and touches no other capture |
| `PacketCapture.CaptureRegistry.constructor` | utils/packet_capture.py:107-129 | no capture is active, no buffer exists, the tables are empty |
| `PacketCapture.CaptureRegistry.StartPacketCapture` | utils/packet_capture.py:107-175 | a new capture row with a fresh id, count 0 and description "Capture on <interface>"; an empty buffer; the capture becomes active |
| `PacketCapture.CaptureRegistry.UpdatePacketCount` | utils/packet_capture.py:397-402 | only the capture's count changes |
| `PacketCapture.CaptureRegistry.SavePacketsToDb` | utils/packet_capture.py:364-395 | a missing or empty buffer changes nothing; otherwise the buffer is emptied, its packets are written in order and the capture's count becomes the number of its rows |
| `PacketCapture.CaptureRegistry.PacketCallback` | utils/packet_capture.py:136-152 | a packet of an inactive capture or one that does not parse is ignored; otherwise it is buffered, the count is refreshed at every hundredth packet, and the buffer is flushed on reaching 1000 |
| `PacketCapture.CaptureRegistry.EndCapture` | utils/packet_capture.py:190-245 | the buffer is flushed, the end time stamped without an error note, and the capture forgotten; other captures keep their rows |
| `PacketCapture.CaptureRegistry.StopPacketCapture` | utils/packet_capture.py:222-247 | stopping succeeds exactly for an active capture, and then flushes its buffer, stamps its end time, keeps its description, refreshes its count when packets were flushed and forgets it, leaving every other capture row, the set of rows and the next id unchanged; otherwise nothing changes |
| `PacketCapture.GetPacketDetails` | utils/packet_capture.py:414-466 | the details carry the stored fields and the fixed IPv4 placeholders; a TCP section exactly for protocol TCP and a UDP section exactly for UDP, never both |
| `PacketCapture.ScapyPacketDetails` | utils/packet_capture.py:310-466 | a parsed and stored Scapy TCP packet shows a TCP section with its ports and letters, a UDP packet a UDP section, with the length as total length |
| `AnomalyDetection.CalculateSeverity` | utils/anomaly_detection.py:321-330 | the effective one-argument definition gives 5 above 5, 4 above 4, 3 above 3 and 2 otherwise, so never 1 |
| `AnomalyDetection.SeverityMonotone` | utils/anomaly_detection.py:321-330 | a larger z-score never gets a lower severity |
| `AnomalyDetection.CallSeverity` | utils/anomaly_detection.py:296-321 | the second definition rebinds the name, so a call succeeds exactly with one argument and raises TypeError with any other number |
| `AnomalyDetection.HoursBefore` | utils/anomaly_detection.py:110 | `current_time - timedelta(hours=h)` raises TypeError exactly when the operand is a float, and otherwise is h hours earlier (the same subtraction is at lines 166, 204 and 259) |
| `AnomalyDetection.DivExceeds` | utils/anomaly_detection.py:227-230 | the ratio test `x / y > c` is the cross-multiplied comparison for a positive divisor |
| `AnomalyDetection.PercentExceeds` | utils/anomaly_detection.py:186-190 | the percentage test `(a / b) * 100 > p` is the integer comparison `100 * a > p * b` (and the ratio test at lines 242-244) |
| `AnomalyDetection.BandwidthNeverRecords` | utils/anomaly_detection.py:115-160 | no bandwidth anomaly is ever recorded; the check stops at a TypeError exactly when there are ten rows and some outlier |
| `AnomalyDetection.BandwidthScanRaises` | utils/anomaly_detection.py:140-157 | the first outlier's three-argument severity call raises before its event is created |
| `AnomalyDetection.ProtocolRequestsFlagged` | utils/anomaly_detection.py:182-195 | the protocol rule reports exactly the groups over 80 percent, in order, request k being the "Unusual amount of <protocol> traffic" event of flagged group k, at severity 3 exactly when over 90 percent and 2 otherwise |
| `AnomalyDetection.AtMostOneProtocolFlagged` | utils/anomaly_detection.py:185-190 | shares add up to the whole, so at most one protocol is ever flagged |
| `AnomalyDetection.FlaggedShare` | utils/anomaly_detection.py:185-190 | a flagged group holds over four fifths of the total |
| `AnomalyDetection.SynFloodRule` | utils/anomaly_detection.py:223-235 | the SYN-flood rule fires, once, exactly when both counts are positive and syn > 3 * synack, at severity 4 exactly when syn > 10 * synack |
| `AnomalyDetection.RstRule` | utils/anomaly_detection.py:238-250 | the RST rule fires, once, exactly when RST-carrying packets exceed 30 percent, at severity 3 exactly when over 50 percent |
| `AnomalyDetection.SynCountsExact` | utils/anomaly_detection.py:223-224 | only the exact strings 'S' and 'SA' count toward the SYN and SYN-ACK sums |
| `AnomalyDetection.RstCountsContaining` | utils/anomaly_detection.py:238-239 | any flag string holding 'R' adds its whole count to the RST sum |
| `AnomalyDetection.FlowRequests` | utils/anomaly_detection.py:283-291 | every flow request is a flow anomaly of severity 2 or 3 naming its source |
| `AnomalyDetection.FlowRequestsFlagged` | utils/anomaly_detection.py:283-291 | a source is reported exactly when its flow count exceeds five times the average, in order, at severity 3 exactly above ten times |
| `AnomalyDetection.FlaggedSources` | utils/anomaly_detection.py:284 | the reference list holds only sources above five times the average |
| `AnomalyDetection.FlowRuleWithoutAverage` | utils/anomaly_detection.py:276-291 | with no average (`or 0`) every source with a flow is reported at severity 3 |
| `AnomalyDetection.Created` | utils/anomaly_detection.py:332-366 | an unresolved event of the same type and description from the last hour suppresses the new one; otherwise one unresolved event with the request's fields and the current time is appended |
| `AnomalyDetection.CreateIdempotent` | utils/anomaly_detection.py:336-346 | creating the same event twice at the same moment adds it at most once |
| `AnomalyDetection.CreatedAll` | utils/anomaly_detection.py:332-366 | a batch of requests only appends, at most one event per request, and the next key moves by the number appended |
| `AnomalyDetection.CreatedAllTypes` | utils/anomaly_detection.py:349-357 | every appended event carries the type of one of the requests |
| `AnomalyDetection.AnomalyStore.constructor` | utils/anomaly_detection.py:349-360 | the AnomalyEvent table starts empty with key 1 next |
| `AnomalyDetection.AnomalyStore.CreateAnomalyEvent` | utils/anomaly_detection.py:332-366 | the table becomes the created table, and the key advances only when a row was added |
| `AnomalyDetection.AnomalyStore.Record` | utils/anomaly_detection.py:142-157 | the requests a rule issues are created one at a time, in order (the other rules create their requests the same way at lines 191-195, 231-250 and 285-291) |
| `AnomalyDetection.AnomalyStore.DetectAnomalies` | utils/anomaly_detection.py:89-104 | a detection pass leaves exactly the events of the connection rule and then the flow rule, since the bandwidth and protocol rules record nothing |
| `AnomalyDetection.ProtocolRuleNeverRuns` | utils/anomaly_detection.py:98-198 | called with the sensitivity where it expects the current time, the protocol rule always stops at the TypeError and reports nothing |
| `AnomalyDetection.TwoBatchesTypes` | utils/anomaly_detection.py:101-104 | two batches of single-typed requests add events of those two types only |
| `AnomalyDetection.ConnectionTypes` | utils/anomaly_detection.py:231-250 | every request of the connection rule is a TCP flag anomaly |
| `AnomalyDetection.DetectionPassTypes` | utils/anomaly_detection.py:89-104 | a detection pass only ever records TCP flag and flow anomalies |
| `AnomalyDetection.Detector.constructor` | utils/anomaly_detection.py:18-21 | no thread, no stop request, method "statistical" and sensitivity 3.0, no detached loop |
| `AnomalyDetection.Detector.StartAnomalyDetection` | utils/anomaly_detection.py:23-68 | start succeeds exactly when no detector thread is alive, and then clears the stop flag and stores the method and sensitivity; otherwise nothing changes; detached loops are left running |
| `AnomalyDetection.Detector.LoopExits` | utils/anomaly_detection.py:45-61 | a loop ends only once the stop flag is set (it catches every exception and sleeps again); the current thread's loop leaves a thread that is no longer alive, a detached loop leaves one fewer detached; nothing else changes |
| `AnomalyDetection.Detector.StopAnomalyDetection` | utils/anomaly_detection.py:70-87 | stop succeeds exactly when the thread is alive, and then raises the stop flag and forgets the thread, which keeps running detached when it did not end within the join; otherwise nothing changes |
| `AnomalyDetection.RestartBeforeLoopWakes` | utils/anomaly_detection.py:23-87 | a stop whose join times out followed by a start leaves two detector loops running with the stop flag cleared: the new one and the detached one |
| `ProtocolRoutes.StartTime` | routes/protocol_analysis.py:19-32 | the window start of a `time_range` lies between one hour and seven days before now |
| `ProtocolRoutes.WindowsNested` | routes/protocol_analysis.py:23-32 | the 7d, 24h, 6h and 1h windows are strictly nested, and any unrecognised range means the one-hour window |
| `ProtocolRoutes.GroupMinutes` | routes/protocol_analysis.py:150-181 | the bucket width chosen for a range and an interval is one of 1, 5, 10, 30 and 60 minutes, so it is positive and divides an hour |
| `ProtocolRoutes.GroupingBounds` | routes/protocol_analysis.py:154-181 | a window never holds more than 168 buckets, and an unknown range buckets like the one-hour range with the 5-minute default |
| `ProtocolRoutes.RoundDownIsFloor` | routes/protocol_analysis.py:192-196 | replacing the minute by `(minute // g) * g` and zeroing the seconds is rounding down to a multiple of g minutes: the bucket start is at most the timestamp, less than one bucket before it, and aligned |
| `ProtocolRoutes.BucketFields` | routes/protocol_analysis.py:192-196 | the rounded time keeps the hour, has a minute that is a multiple of g no later than the original minute, and has zero seconds |
| `ProtocolRoutes.Since` | routes/protocol_analysis.py:35-37 | the query filter keeps exactly the rows at or after the window start |
| `ProtocolRoutes.AggregateByProtocol` | routes/protocol_analysis.py:40-50 | the aggregation loop leaves one dict entry per protocol seen, in first-appearance order, holding that protocol's summed packets and bytes |
| `ProtocolRoutes.TotalBytes` | routes/protocol_analysis.py:53 | `total_bytes` is the sum of the per-protocol byte counts |
| `ProtocolRoutes.ProtocolDistribution` | routes/protocol_analysis.py:16-74 | the distribution answer is the per-protocol entries of the rows in the window, sorted by percentage |
| `ProtocolRoutes.DistributionSorted` | routes/protocol_analysis.py:59-69 | the answer is in descending percentage order and is a rearrangement of the per-protocol entries |
| `ProtocolRoutes.DistributionOnePerProtocol` | routes/protocol_analysis.py:40-66 | every protocol occurring in the rows is listed exactly once, and no other protocol is listed |
| `ProtocolRoutes.DistributionBytesTotal` | routes/protocol_analysis.py:49-53 | the byte counts of the answer, and `total_bytes`, add up to the bytes of all rows in the window |
| `ProtocolRoutes.PercentagesBounded` | routes/protocol_analysis.py:52-56 | every percentage lies in 0..100, and all stay 0.0 when the window carries no bytes |
| `ProtocolRoutes.TcpFlagStrings` | routes/protocol_analysis.py:95-99 | the query keeps at most the table's packets: the TCP ones in the window whose flags are present |
| `ProtocolRoutes.RouteDescriptionsAreDissectorDescriptions` | routes/protocol_analysis.py:126-144 | the route's own description table and fallback text are those of the dissector's `get_tcp_flags_description`, so both describe every flag string alike |
| `ProtocolRoutes.CountFlagCombinations` | routes/protocol_analysis.py:102-107 | the counting loop leaves one entry per distinct flag string, in first-appearance order, holding its number of occurrences |
| `ProtocolRoutes.TcpFlagsAnalysis` | routes/protocol_analysis.py:76-124 | the tcp-flags answer is the counted, described combinations of the window's TCP packets, sorted by count |
| `ProtocolRoutes.DescribeCombinations` | routes/protocol_analysis.py:110-116 | for counts that hold each combination's packet count, the result lists every combination once, in key order, with its count and its flag description |
| `ProtocolRoutes.FlagDistributionSorted` | routes/protocol_analysis.py:110-119 | the tcp-flags list is in descending count order and rearranges the per-combination entries |
| `ProtocolRoutes.FlagDistributionOnePerCombination` | routes/protocol_analysis.py:102-116 | each flag string seen is listed exactly once with a count of at least 1, and no string that was not seen is listed |
| `ProtocolRoutes.FlagCountsTotal` | routes/protocol_analysis.py:102-107 | the counts of the list add up to the number of TCP packets with flags |
| `ProtocolRoutes.Bucketed` | routes/protocol_analysis.py:190-196 | each row keeps its protocol and counts and has its timestamp rounded down to its bucket |
| `ProtocolRoutes.ProtocolsAtSnoc` | routes/protocol_analysis.py:203-207 | one more row adds its protocol to its own bucket's protocols and to no other bucket |
| `ProtocolRoutes.ProtocolsAtBucket` | routes/protocol_analysis.py:200-201 | a bucket has protocols exactly when some row falls into it |
| `ProtocolRoutes.SeriesOrderStep` | routes/protocol_analysis.py:200-201 | a row of a new bucket appends its key to the dict's key order; a row of a known bucket leaves the order alone |
| `ProtocolRoutes.SeriesCellsStep` | routes/protocol_analysis.py:203-210 | a row changes only its own bucket-and-protocol cell, by its packet and byte counts |
| `ProtocolRoutes.BucketSeries` | routes/protocol_analysis.py:189-210 | the grouping loop leaves one dict entry per bucket in first-appearance order, each holding the summed counts of every protocol of its rows |
| `ProtocolRoutes.ProtocolOverTime` | routes/protocol_analysis.py:146-232 | the protocol-over-time answer is the time series of the window's rows, oldest first, bucketed by the chosen width |
| `ProtocolRoutes.SeriesOrdered` | routes/protocol_analysis.py:213-226 | the series holds one point per bucket that has rows, in strictly increasing time order, and no point for an empty bucket |
| `ProtocolRoutes.SeriesPoints` | routes/protocol_analysis.py:192-221 | every point starts on a bucket boundary and lists exactly the protocols of its bucket, each with the bytes of that protocol's rows there |
| `AnomalyRoutes.Respond` | routes/anomaly_detection.py:24-37 | the status is 200 exactly when the utility returns and 500 exactly when it raises; `success` is true only for a returned true |
| `Common.BodyErrorStatus` | routes/anomaly_detection.py:20-22 | a body that is not a JSON object is answered 400 exactly when it does not parse and 500 exactly when it is another JSON value, on which `.get` raises (the same read is at routes/anomaly_detection.py:97-98 and routes/settings.py:40-42) |
| `AnomalyRoutes.StartDetection` | routes/anomaly_detection.py:17-28 | a body that is not a JSON object is answered 400 (malformed) or 500 (another JSON value) before the detector is touched; otherwise the route answers 200 and succeeds exactly when no detection thread is alive, and then the thread runs with the stop flag cleared and the body's method and sensitivity, or their defaults "statistical" and 3.0; otherwise nothing changes |
| `AnomalyRoutes.StopDetection` | routes/anomaly_detection.py:30-37 | the stop route answers 200; it succeeds exactly when a thread was alive, and then the thread is gone and a stop was requested, the loop staying detached when the join timed out; the method and sensitivity never change |
| `AnomalyRoutes.SeverityFilter` | routes/anomaly_detection.py:44-53 | a severity filters exactly when it is given and non-zero, and then by that value |
| `AnomalyRoutes.ResolvedFilter` | routes/anomaly_detection.py:45-57 | any text given for `resolved` filters, and it selects resolved events exactly when its lower case is "true" |
| `AnomalyRoutes.ResolvedFilterIgnoresCase` | routes/anomaly_detection.py:56 | letter case of the argument never matters; "TRUE" selects resolved events and "yes" unresolved ones |
| `AnomalyRoutes.TimeFilter` | routes/anomaly_detection.py:59-65 | a missing or empty bound does not filter; a non-empty bound raises ValueError exactly when it does not parse, else filters by the parsed time |
| `AnomalyRoutes.ParseFilterOutcome` | routes/anomaly_detection.py:52-65 | the listing request fails, with ValueError, exactly when one of the time bounds fails to parse; otherwise each condition is the one its argument selects |
| `AnomalyRoutes.Where` | routes/anomaly_detection.py:50-65 | the filtered query keeps exactly the events that meet every condition |
| `AnomalyRoutes.NoFilterKeepsAll` | routes/anomaly_detection.py:50 | with no condition the query returns the whole table in table order |
| `AnomalyRoutes.AnomaliesSelected` | routes/anomaly_detection.py:67-70 | the ordered listing holds exactly the matching events, each as often as in the table, newest first; it raises exactly when the filters do |
| `AnomalyRoutes.FindEvent` | routes/anomaly_detection.py:101 | `get_or_404` finds the first event with the key, and finds none exactly when no event has it |
| `AnomalyRoutes.ResolveChangesOneEvent` | routes/anomaly_detection.py:101-108 | resolving answers 404 exactly when no event has the key; otherwise only that event changes, and only its resolved flag and its notes |
| `AnomalyRoutes.ResolveIdempotent` | routes/anomaly_detection.py:104-105 | resolving an event twice with the same notes is resolving it once |
| `AnomalyRoutes.ResolvedIsNoDuplicate` | routes/anomaly_detection.py:104 | once resolved, an event no longer suppresses a new event with its type and description |
| `AnomalyRoutes.StoredNotes` | routes/anomaly_detection.py:97-98 | the stored notes are "" when `resolution_notes` is missing, None exactly for a JSON null, and the text otherwise |
| `AnomalyRoutes.ResolveAnomaly` | routes/anomaly_detection.py:94-110 | a body that is not a JSON object is answered 400 or 500 and leaves the table alone, even for an unknown key, since the body is read before `get_or_404`; otherwise the route answers 404 and leaves the table alone when the key is unknown, else answers 200 with the table resolved at that key with the stored notes |
| `AnomalyRoutes.ResolutionData` | routes/anomaly_detection.py:148-157 | the loop over the resolution groups leaves the last count of a truthy group in `resolved`, that of a falsy group in `unresolved`, and 0 where there is none |
| `AnomalyRoutes.AnomalyStatistics` | routes/anomaly_detection.py:112-164 | the statistics are the events grouped by severity and by type, the resolved and unresolved counts, and a total equal to the number of events |
| `AnomalyRoutes.ResolutionCoversAll` | routes/anomaly_detection.py:128-163 | resolved and unresolved counts add up to the total, and the resolved count is the size of the `resolved=true` listing |
| `SettingsRoutes.FindKey` | routes/settings.py:44 | `filter_by(key=key).first()` finds the first row with the key, and finds none exactly when no row has it |
| `SettingsRoutes.FindKeyByKeys` | routes/settings.py:44 | which row the lookup finds depends on the keys of the table alone, not on values or descriptions |
| `SettingsRoutes.UpsertLookup` | routes/settings.py:44-52 | one iteration of update_settings makes the written key find its new value, keeping the description of an existing row and giving a new row none; every other key finds what it found before |
| `SettingsRoutes.UpdatedLookup` | routes/settings.py:42-52 | after the whole request a key mentioned in it holds the value of its last item, and an unmentioned key holds what it held before |
| `SettingsRoutes.UpsertKeepsKeysUnique` | routes/settings.py:44-52 | an upsert keeps the table's keys unique |
| `SettingsRoutes.UpdatedKeepsKeysUnique` | routes/settings.py:42-52 | the unique key of the Settings table survives any update request |
| `SettingsRoutes.DefaultRows` | routes/settings.py:111-130 | the reset table holds one row per default setting, in the written order, with the default value and no description |
| `SettingsRoutes.DefaultKeysUnique` | routes/settings.py:111-120 | the eight default keys are distinct |
| `SettingsRoutes.DefaultRowsLookup` | routes/settings.py:111-130 | after a reset each of the eight keys finds exactly its default value; `flow_collector_port` finds "9995" |
| `SettingsRoutes.SettingsTable.constructor` | routes/settings.py:25 | the model table starts empty |
| `SettingsRoutes.SettingsTable.UpdateSettings` | routes/settings.py:37-57 | a body that is not a JSON object is answered 400 or 500 and leaves the table as it was; otherwise a request that commits leaves the updated table and answers success, and one whose commit raises leaves the table as it was and answers 500 |
| `SettingsRoutes.SettingsTable.ResetSettings` | routes/settings.py:107-136 | a reset that commits leaves exactly the default rows; a failing delete leaves the table unchanged, a failing insert leaves it empty; both answer 500 |
| `SettingsRoutes.SettingsTable.GetSettings` | routes/settings.py:22-35 | the loop builds the dictionary in which a later row overwrites an earlier row's key |
| `SettingsRoutes.SettingsDictKeys` | routes/settings.py:28-33 | the dictionary has an entry exactly for each key in the table |
| `SettingsRoutes.SettingsDictLast` | routes/settings.py:28-33 | a key's entry holds the value and description of the last row with that key |
| `SettingsRoutes.SettingsDictComplete` | routes/settings.py:28-33 | with unique keys every row is read back from its key's entry |
| `SettingsRoutes.GetInterfaces` | routes/settings.py:59-76 | the interface list is every row in row order with every modelled field copied (name, description, addresses, up and loopback; not `id`) |
| `SettingsRoutes.RefreshNetworkInterfaces` | routes/settings.py:78-105 | once the delete has committed, the interface list is one `AvailableFrom` the two sources allow; a successful refresh replaces the rows by one row per listed interface, in order, with '' addresses and `is_loopback` true only where the interface says so, and reports their number; a failing delete keeps the old rows and a failing insert leaves none, both answering 500 |
| `PageCommon.Scheduler.SetInterval` | static/js/protocol_analysis.js:531-548 | an installed interval gets a positive (truthy) handle not already in use, and nothing else changes in the set of running timers |
| `PageCommon.Scheduler.ClearInterval` | static/js/protocol_analysis.js:553-558 | clearing removes exactly that handle; an unknown handle is ignored |
| `PageCommon.PrevStep` | static/js/packet_analysis.js:37-44 | the prev handler moves and loads a page exactly when the current page is after the first, moving to the page before and loading that same page; otherwise nothing changes |
| `PageCommon.NextStep` | static/js/packet_analysis.js:46-53 | the next handler moves and loads a page exactly when the current page is before the last, moving to the following page and loading it; otherwise nothing changes |
| `PageCommon.LoadedStep` | static/js/packet_analysis.js:399-416 | a load takes the page and page count from the reply, disables prev exactly on page 1 and next exactly on the last page |
| `PageCommon.PagingBounds` | static/js/packet_analysis.js:37-53 | from a page within 1..totalPages no click leaves that range, and each button is disabled exactly when its handler would not move; with zero pages next stays enabled but does nothing (the buttons are drawn at lines 399-416) |
| `PageCommon.RowNumbering` | static/js/packet_analysis.js:449 | page p numbers its 50 rows (p-1)*50+1 to p*50, numbers never repeat across pages, and the last row of a page is followed by the first of the next |
| `PageCommon.EndpointReadsBack` | static/js/packet_analysis.js:452-453 | the host column is the address alone exactly when the port is missing or 0; otherwise the address is followed by a colon and the decimal port, which parses back to the port |
| `PageCommon.FlagSpan` | static/js/packet_analysis.js:443 | one flag letter becomes a 29-character span whose class suffix and text are both that letter |
| `PageCommon.FormatFlagSpans` | static/js/packet_analysis.js:441-445 | the loop appends one span per flag character, in order, yielding the span rendering of the whole string |
| `PageCommon.FlagSpansLayout` | static/js/packet_analysis.js:441-445 | the rendering is 29 characters per flag and its k-th block is the span of the k-th flag, with nothing else written |
| `PageCommon.FlagLetterAt` | static/js/packet_analysis.js:443 | the letter of flag k can be read at a fixed position of the k-th span |
| `PageCommon.FlagSpansInjective` | static/js/protocol_analysis.js:414-418 | two flag strings render to the same markup exactly when they are equal |
| `PageCommon.TcpFlagsCell` | static/js/protocol_analysis.js:414-418 | the cell wraps the per-letter spans in one outer `tcp-flags` span, so its length is fixed by the number of flags |
| `PageCommon.UpdateStatus` | static/js/flow_analysis.js:101-124 | the status update records the new state and disables exactly the button that would repeat it |
| `PageCommon.SettledAsWrittenBreaksConsistency` | static/js/flow_analysis.js:128-224 | with the unconditional `finally`, a successful start leaves start enabled on a running collector and a successful stop leaves stop enabled on a stopped one; a failed request leaves the buttons consistent only when it was the enabled button |
| `PageCommon.StartCorrected` | static/js/flow_analysis.js:144-184 | a start whose button is restored from the recorded state; the service is running afterwards exactly when the request succeeded or it already ran |
| `PageCommon.StopCorrected` | static/js/flow_analysis.js:196-224 | a stop whose button is restored from the recorded state; the service is running afterwards exactly when the request failed and it was running |
| `PageCommon.SettledCorrectedKeepsConsistency` | static/js/flow_analysis.js:101-184 | with the restoring `finally`, every reply leaves exactly the state-changing button enabled, and a failed request leaves the controls as they were |
| `PageCommon.OtherSlice` | static/js/protocol_analysis.js:282-292 | the folded entry is named "Other" and carries the byte and percentage sums of the remaining protocols, and a packet sum only where the page adds one |
| `PageCommon.TopWithOtherShape` | static/js/protocol_analysis.js:278-293 | the shown list is the whole list when it has at most `limit` entries; otherwise its first `limit` entries unchanged followed by exactly one "Other" |
| `PageCommon.TopWithOtherTotals` | static/js/protocol_analysis.js:278-293 | folding the tail into "Other" keeps the byte, percentage and (where counted) packet totals of the list |
| `PageCommon.ChartSlicesTotals` | static/js/protocol_analysis.js:275-293 | the sorted and folded chart list has at most `limit` + 1 entries and shows every byte, and every packet where counted, of the reply |
| `PageCommon.ChartSlicesTop` | static/js/protocol_analysis.js:275-279 | after the descending sort no protocol past the first `limit` has a larger share than one before it, and each shown protocol comes from the reply |
| `PageCommon.ProtocolBars` | static/js/protocol_analysis.js:296-297 | labels and values are as long as the slices and pair each slice's protocol with its byte count |
| `PageCommon.SumOfMapSeq` | static/js/protocol_analysis.js:297 | summing the mapped values equals summing the mapped quantity over the items |
| `PageCommon.ProtocolChartCorrect` | static/js/protocol_analysis.js:271-300 | the protocol chart has at most `limit` + 1 labels aligned with their byte counts, adding up to the reply's bytes, with "Other" last exactly when the reply had more than `limit` protocols |
| `ProtocolPage.FlagBars` | static/js/protocol_analysis.js:383-388 | the flags chart has one bar per combination for the first ten of the list (fewer when the list is shorter), each label beside its own count |
| `ProtocolPage.FlagBarsTop` | static/js/protocol_analysis.js:380-388 | after the descending sort by count every bar comes from the reply, the list is ordered by count, and no combination left off the chart is more frequent than one shown |
| `ProtocolPage.FlagRowsReadBack` | static/js/protocol_analysis.js:413-423 | two table rows have the same flags cell exactly when their flag strings are equal, and the cell's length is fixed by the number of flags |
| `ProtocolPage.AddKeysUnion` | static/js/protocol_analysis.js:474-480 | adding an entry's keys to the Set keeps each key once and adds exactly the entry's keys other than `timestamp` |
| `ProtocolPage.KeyUnionMembers` | static/js/protocol_analysis.js:472-481 | after visiting every entry the Set holds, once each, exactly the keys other than `timestamp` that some entry carries |
| `ProtocolPage.CollectProtocols` | static/js/protocol_analysis.js:472-481 | the nested loop over entries and their keys builds the Set in insertion order |
| `ProtocolPage.SortedProtocols` | static/js/protocol_analysis.js:497 | the sorted protocol array holds exactly the carried keys, each once, in string order |
| `ProtocolPage.SeriesChartCorrect` | static/js/protocol_analysis.js:462-517 | the chart has one label per entry and one dataset per carried key in string order, each with one point per entry (its value, or 0 where missing) and colour i mod 10 |
| `ProtocolPage.Page.constructor` | static/js/protocol_analysis.js:95-237 | each chart exists exactly when its canvas does, every chart starts empty, and no refresh timer runs |
| `ProtocolPage.Page.UpdateProtocolDistributionChart` | static/js/protocol_analysis.js:271-305 | with a chart and a non-empty reply, the reply is sorted in place by share and the chart shows the first eight protocols plus "Other"; otherwise nothing changes; the other charts and the timer never change |
| `ProtocolPage.Page.UpdateTcpFlagsChart` | static/js/protocol_analysis.js:376-396 | with a chart and a non-empty reply, the reply is sorted in place by count and the chart shows its first ten combinations; otherwise nothing changes |
| `ProtocolPage.Page.UpdateProtocolOverTimeChart` | static/js/protocol_analysis.js:462-521 | with a chart and a non-empty reply, the chart gets the reply's labels and datasets; otherwise nothing changes |
| `ProtocolPage.Page.StartAutoRefresh` | static/js/protocol_analysis.js:524-550 | any running timer is cleared first, so afterwards exactly one timer runs, the one the page's global names, with a period of `seconds` * 1000 ms |
| `ProtocolPage.Page.StopAutoRefresh` | static/js/protocol_analysis.js:553-559 | afterwards no timer runs and the global is cleared; with no timer nothing changes |
| `ProtocolPage.TcpFlagsTable` | static/js/protocol_analysis.js:399-428 | the reply is sorted in place by count and there is one row per entry in that order, its flags cell built by the per-letter loop |
| `DashboardPage.Latest` | static/js/dashboard.js:269-272 | the chart keeps the last twenty points of the sorted list, or all of them when there are fewer |
| `DashboardPage.BandwidthLineLatest` | static/js/dashboard.js:262-290 | what the bandwidth chart would show: at most twenty points of the reply, oldest first, inbound and outbound aligned with the labels, and no dropped point later than a shown one |
| `DashboardPage.AnomalyIconBands` | static/js/dashboard.js:382-389 | the icon rises with the severity, one step per band from 2 to 4, and every severity the detector assigns gets a warning icon rather than the info icon |
| `DashboardPage.AnomalyItems` | static/js/dashboard.js:372-411 | a missing or empty list shows only the placeholder; otherwise one item per anomaly in reply order, with its severity's icon and its event type |
| `DashboardPage.BadgeClasses` | static/js/dashboard.js:413-425 | after an update the badge has the busy class exactly when the count is positive and `bg-secondary` exactly when it is 0, every other class kept |
| `DashboardPage.CountBadgeReadsBack` | static/js/dashboard.js:413-488 | the anomaly and capture badges display the list length (0 for no list) and are coloured exactly when the list is non-empty |
| `DashboardPage.TopIndex` | static/js/dashboard.js:578-580 | the reduce picks an entry whose share no other entry exceeds, and no later entry has the same share |
| `DashboardPage.TopProtocol` | static/js/dashboard.js:571-584 | a top protocol is shown exactly when the list is present and non-empty; it comes from the list and has the largest share |
| `DashboardPage.TopProtocolTie` | static/js/dashboard.js:578-580 | of two entries with equal share the later one is shown |
| `DashboardPage.BandwidthShown` | static/js/dashboard.js:548-568 | with no data nothing is written; each rate is written only when the reply has it, and the total only when both are present, as their sum |
| `DashboardPage.Dashboard.constructor` | static/js/dashboard.js:4-213 | after `initCharts` the global the bandwidth update tests is still null, the `charts.bandwidth` line chart and the protocol chart exist exactly when their canvases do, and no timer runs |
| `DashboardPage.Dashboard.UpdateBandwidthChartAsWritten` | static/js/dashboard.js:262-290 | the update as written: while its `bandwidthChart` global is null it returns at once, leaving the drawn chart and the reply unchanged |
| `DashboardPage.BandwidthChartNeverDrawn` | static/js/dashboard.js:263 | on a one-point reply the as-written update leaves the line chart empty, where the update guarded on the created chart draws the point (the global is declared at line 4 and never assigned; line 42 assigns `charts.bandwidth`) |
| `DashboardPage.Dashboard.UpdateBandwidthChart` | static/js/dashboard.js:262-290 | the update guarded on the chart `initCharts` created: the reply is sorted in place and the chart shows its latest points; otherwise nothing changes |
| `DashboardPage.Dashboard.UpdateProtocolChart` | static/js/dashboard.js:293-329 | with a chart and a non-empty reply, the reply is sorted in place by share, the chart shows the first six plus an "Other" without a packet count, and the table gets the whole sorted list |
| `DashboardPage.ProtocolTableComplete` | static/js/dashboard.js:297-360 | the table is given every entry of the reply, not only the charted ones, and the chart's "Other" carries no packet count |
| `DashboardPage.Dashboard.UpdateRefreshInterval` | static/js/dashboard.js:587-602 | any timer is cleared; a new one of `seconds` * 1000 ms is installed only for a positive number of seconds, otherwise no timer runs and the cleared handle stays recorded |
| `AnomalyPage.BadgeBands` | static/js/anomaly_detection.js:411-432 | the exact comparisons give severities 2 to 5 four different labels and classes and every other severity the Info badge; every severity the detector assigns gets a band of its own |
| `AnomalyPage.SeverityCounts` | static/js/anomaly_detection.js:658-670 | the loop fills five slots, slot s - 1 holding the count the reply gives for severity s (the last one when a severity repeats) and 0 where none is given; other severities are ignored |
| `AnomalyPage.SeveritySlotsCountEvents` | static/js/anomaly_detection.js:663-667 | with the statistics route's groups, slot s - 1 is the number of events of severity s |
| `AnomalyPage.EventTypeBars` | static/js/anomaly_detection.js:673-680 | the event type chart has one bar per group in reply order, its label the group's event type and its value the group's count |
| `AnomalyPage.EventTypeBarsCoverEvents` | static/js/anomaly_detection.js:673-680 | with the statistics route's groups every event type appears once and the bars add up to the number of events |
| `AnomalyPage.ResolutionChart` | static/js/anomaly_detection.js:683-690 | the resolution chart has two slices, resolved then unresolved |
| `AnomalyPage.ResolutionChartCoversEvents` | static/js/anomaly_detection.js:683-690 | with the statistics route's counts the two slices are non-negative and cover every event once |
| `AnomalyPage.SumWhereHigh` | static/js/anomaly_detection.js:607-609 | within one severity group, counting only events of severity 4 or more gives the group's count when the severity is 4 or more and 0 otherwise |
| `AnomalyPage.HighSeverityCountsEvents` | static/js/anomaly_detection.js:605-612 | with the statistics route's groups the high-severity figure is the number of events of severity 4 or more |
| `AnomalyPage.StartForm` | static/js/anomaly_detection.js:238-249 | the form sends a request exactly when the sensitivity is missing (3.0 is used) or parses to a positive number; the method defaults to `statistical` |
| `AnomalyPage.StartFormReachesDetector` | static/js/anomaly_detection.js:238-249 | a request the form sends reaches the detector with the form's method and positive sensitivity; the start route's defaults never apply |
| `AnomalyPage.Page.constructor` | static/js/anomaly_detection.js:122-236 | the page starts on page 1 with the detector inactive and consistent buttons; each of the three charts exists, empty, exactly when its own canvas is on the page (looked up one by one at lines 124, 172 and 206) (the module state is declared at line 5) |
| `AnomalyPage.Page.UpdateDetectionStatus` | static/js/anomaly_detection.js:95-118 | the status update records the state and disables the button that would repeat it, leaving the rest of the page unchanged |
| `AnomalyPage.Page.StartAnomalyDetection` | static/js/anomaly_detection.js:238-296 | an invalid sensitivity sends nothing and changes nothing; otherwise the buttons settle from the reply with the restoring `finally`, staying consistent with the state |
| `AnomalyPage.Page.StopAnomalyDetection` | static/js/anomaly_detection.js:298-336 | an unconfirmed stop changes nothing; a confirmed one settles the buttons from the reply, consistent with the state |
| `AnomalyPage.Page.UpdateAnomalyCharts` | static/js/anomaly_detection.js:656-692 | each chart present is updated from the statistics (five severity slots, the event type bars, the resolution slices) and a missing chart is skipped |
| `AnomalyPage.Page.PrevPage` | static/js/anomaly_detection.js:47-53 | the prev button follows the shared prev step, leaving the controls and charts unchanged |
| `AnomalyPage.Page.NextPage` | static/js/anomaly_detection.js:56-62 | the next button follows the shared next step, leaving the controls and charts unchanged |
| `AnomalyPage.Page.FilterSubmit` | static/js/anomaly_detection.js:66-72 | the filter form returns to page 1 and loads it |
| `AnomalyPage.Page.Loaded` | static/js/anomaly_detection.js:379-396 | a loaded page stores the reply's page and page count and sets the buttons from them |
| `PacketPage.InterfaceOptionsCorrect` | static/js/packet_analysis.js:93-114 | each interface is offered under its own name with a label that starts with the name; it is unselectable exactly when the interface is down, and then the label ends in " [DOWN]"; an interface that is up is labelled by its name, or by its name and its description in parentheses; an empty list leaves one unselectable placeholder with an empty value |
| `PacketPage.StartCapture` | static/js/packet_analysis.js:224-253 | the form is rejected exactly when the interface or the name is empty, with the interface message exactly when the interface is the empty one; otherwise the fields are sent unchanged |
| `PacketPage.PacketRows` | static/js/packet_analysis.js:423-458 | the loop yields one row per packet in reply order, numbered from the current page, with the protocol class, the host:port columns, the length, the flags cell and the info of that packet |
| `PacketPage.PacketRowOf` | static/js/packet_analysis.js:433-457 | the row built for one packet is the reference row for that packet and number, its flags cell one span per flag letter |
| `PacketPage.PacketRowsCorrect` | static/js/packet_analysis.js:437-449 | consecutive rows and the first row of the next page are numbered one after another; the flags cell is empty exactly when the packet has no flag string, and two packets' cells are equal exactly when their flag strings are |
| `PacketPage.FormatTcpFlags` | static/js/packet_analysis.js:660-669 | a string becomes one coloured span per character; any other value is returned unchanged |
| `PacketPage.Page.constructor` | static/js/packet_analysis.js:5-8 | the page starts with no capture viewed, on page 1 and with no refresh timer |
| `PacketPage.Page.ViewCapture` | static/js/packet_analysis.js:338-381 | the capture is shown from page 1; an active capture leaves exactly one 5000 ms timer running, the one the page's global names, and an inactive one leaves no timer at all |
| `PacketPage.Page.PrevPage` | static/js/packet_analysis.js:37-44 | the prev button follows the shared prev step and loads the viewed capture at the new page |
| `PacketPage.Page.NextPage` | static/js/packet_analysis.js:46-53 | the next button follows the shared next step and loads the viewed capture at the new page |
| `PacketPage.Page.Loaded` | static/js/packet_analysis.js:396-476 | a loaded page stores the reply's page and page count, sets the buttons, and shows the "No packets found" row exactly when the list is missing or empty, otherwise one numbered row per packet |
| `FlowPage.StartCollector` | static/js/flow_analysis.js:128-139 | a rejected form shows the port message; a sent request carries a port in 1..65535 and the chosen flow type, `netflow` when the element is missing |
| `FlowPage.StartCollectorAccepts` | static/js/flow_analysis.js:132-139 | a typed port is sent exactly when it is a number in 1..65535, and then unchanged; NaN is never sent; a missing port element sends 9995 |
| `FlowPage.ProtocolNameReadsBack` | static/js/flow_analysis.js:305-309 | the names TCP, UDP and ICMP are given exactly to 6, 17 and 1, any other number reads back from its column, and two flows show the same protocol text exactly when their numbers are equal |
| `FlowPage.NotAName` | static/js/flow_analysis.js:305 | a number shown as it is can never be mistaken for one of the three names |
| `FlowPage.FlowRows` | static/js/flow_analysis.js:298-322 | the loop yields one row per flow in reply order, numbered from the current page, with its flow type, host:port columns and protocol name |
| `FlowPage.Page.constructor` | static/js/flow_analysis.js:92-99 | the page starts on page 1 with the collector inactive and consistent buttons (the module state is declared at lines 5-7) |
| `FlowPage.Page.UpdateCollectorStatus` | static/js/flow_analysis.js:101-124 | the status update records the state and enables exactly the button that changes it |
| `FlowPage.Page.StartFlowCollector` | static/js/flow_analysis.js:128-186 | a rejected port changes nothing; a sent request settles the buttons from the reply with the restoring `finally`, consistent with the state |
| `FlowPage.Page.StopFlowCollector` | static/js/flow_analysis.js:188-226 | an unconfirmed stop changes nothing; a confirmed one settles the buttons from the reply, consistent with the state |
| `FlowPage.Page.PrevPage` | static/js/flow_analysis.js:45-52 | the prev button follows the shared prev step |
| `FlowPage.Page.NextPage` | static/js/flow_analysis.js:54-61 | the next button follows the shared next step |
| `FlowPage.Page.FilterSubmit` | static/js/flow_analysis.js:64-71 | the filter form returns to page 1 and loads it |
| `FlowPage.Page.Loaded` | static/js/flow_analysis.js:274-327 | a loaded page stores the reply's page and page count, sets the buttons, and shows the "No flow records found" row exactly when the list is missing or empty, otherwise one numbered row per flow |
| `Common.DecimalRoundTrip` | utils/protocol_dissection.py:73-79 | the decimal text of an integer, as the `Protocol-N` and `TCP-N` fallbacks print it, reads back to the integer, so the fallback names tell numbers apart |
| `Common.Lower` | static/js/packet_analysis.js:435 | lower-casing keeps the length and maps each character on its own |
| `Sorting.Sort` | routes/protocol_analysis.py:119 | the stable sort returns a permutation of its input, of the same length (the same sort is at lines 69 and 226) |
| `Sorting.SortCorrect` | routes/protocol_analysis.py:119 | for a total preorder the result is ordered and a permutation of the input (the same sort is at lines 69 and 226) |
| `Sorting.SortKeepsSorted` | routes/protocol_analysis.py:119 | the sort is stable on ordered input: a list already ordered under the comparison comes back unchanged, so tied entries keep their order (the same sort is at lines 69 and 226) |
| `Sorting.SortMembers` | static/js/protocol_analysis.js:275 | sorting neither adds nor drops an entry |
| `Sorting.LexIsPreorder` | static/js/protocol_analysis.js:497 | string order, as `Array.sort()` compares keys, is a total preorder |
| `Sorting.PermutationKeepsDistinct` | static/js/protocol_analysis.js:497 | sorting a list of distinct keys leaves them distinct |
| `Grouping.DistinctKeysMembers` | routes/protocol_analysis.py:44-50 | the keys a dict fills from the rows are exactly the keys some row has |
| `Grouping.GroupTotals` | routes/protocol_analysis.py:44-53 | summing a per-key total over the distinct keys gives the total over all rows, so grouping loses nothing |
| `Grouping.SumByPermutation` | routes/protocol_analysis.py:69 | reordering rows keeps every sum over them |
| `Grouping.GroupSizesTotal` | routes/anomaly_detection.py:117-131 | the group counts of a `GROUP BY` add up to the number of rows |
| `Grouping.GroupCount` | routes/anomaly_detection.py:117-121 | reading a key's group back from the groups gives the number of rows with that key |
| `Grouping.LabelledPermutation` | routes/protocol_analysis.py:56-69 | a reordering of one item per distinct key still has exactly one item per key, each the item built for its key |
| `Wire.Unpack` | utils/flow_analysis.py:122 | `struct.unpack` in network order succeeds exactly when the buffer has the size of the format, then yields one value per field, and otherwise raises `struct.error` |
| `Wire.UnpackPack` | utils/flow_analysis.py:122 | unpacking the bytes packed from in-range values gives those values back, so every field is read from its own bytes (and the v9 header at line 190) |
| `Wire.UnpackPackAt` | utils/flow_analysis.py:122 | field i of the unpacked packed buffer is the i-th packed value (and the v9 header at line 190) |
| `Wire.UnpackedField` | utils/flow_analysis.py:122-131 | field k of an unpacked buffer is decoded from the bytes at the field's offset, and lies in the range of its code |
| `Wire.FieldRoundTrip` | utils/protocol_dissection.py:107-109 | decoding the bytes of an in-range field value gives the value back |
| `Wire.Word16IsUnpack` | utils/protocol_dissection.py:137-138 | the 16-bit read at an offset is the `!H` unpack of the two bytes there, raising `struct.error` when they are missing |
| `Wire.Word32IsUnpack` | utils/protocol_dissection.py:139-140 | the 32-bit read at an offset is the `!I` unpack of the four bytes there, raising `struct.error` when they are missing |
| `Wire.Word32Halves` | utils/protocol_dissection.py:139-140 | a 32-bit read is the two big-endian 16-bit halves at its offset, the high one first |
| `Wire.ByteAt` | utils/protocol_dissection.py:106-111 | indexing a byte succeeds exactly inside the buffer and raises IndexError past its end |
| `Wire.InetNtoa` | utils/protocol_dissection.py:113-114 | `socket.inet_ntoa` succeeds exactly on four bytes |
| `Wire.HexlifyAt` | utils/protocol_dissection.py:84-85 | `hexlify` writes two lowercase hex digits per byte, high nibble first |
| `Wire.MacTextShape` | utils/protocol_dissection.py:84-90 | a six-byte MAC prints as 17 characters: two hex digits per byte, separated by colons |
| `Wire.MacTextRoundTrip` | utils/protocol_dissection.py:84-90 | the printed MAC address reads back to its six bytes, so two addresses print alike only when equal |

## Left out

- DOM manipulation, `fetch`, Chart.js and Bootstrap calls, `showAlert` and `console` logging: the pages are modelled from the values they compute and the globals they set; a chart is the labels and data it is given.
- static/js/charts.js (chart configuration, the D3 force simulation and heat map, `formatBytes`, `formatNumber`): presentation over floating point, not part of this model; `formatBytes`, `toLocaleString` and `toFixed` output is not modelled, so the shown figures are the numbers before formatting.
- Date rendering (`toLocaleTimeString`, `toLocaleString`, `isoformat`, `fromtimestamp`): a parameter (`localTime`), or an integer timestamp; ISO keys of the time series are compared as the times they denote.
- Floating-point statistics: the mean and standard deviation of the bandwidth rule are inputs, the `:.2f` rendering of a number in an event description is a parameter (`fmt2`), numpy's `calculate_baseline_statistics` and the percentages of `analyze_flow_data` and `analyze_protocol_distribution` are not modelled; ratios and percentages elsewhere are exact rationals (`real`) or integer cross-multiplication, which departs from Python floats only for counts beyond 2^53.
- SQL and ORM semantics: `filter`, `order_by`, `group_by`, the nested `avg(count())` query and Flask-SQLAlchemy `paginate` are given as their results (sequences of rows, groups, a page number and page count); routes/flow_analysis.py, routes/packet_analysis.py and routes/dashboard.py only query and format and are not part of this model.
- Threads and sockets: `collector_loop`, `capture_thread` (PyShark/Scapy live capture) and `detector_loop` are modelled as a running flag plus the effect of one datagram, one packet or one detection pass; their timing, `sleep`, and concurrent access to the buffers are not modelled.
- AnomalyDetection.Detector.LoopExits: whether a stopped loop ends within the 5 s join or sleeps through it (up to 300 s) is a parameter of the stop (`joined`), not derived from the loop's timing; a detached loop is only counted, so which pass it runs and what it records beside the new loop is not modelled.
- SettingsRoutes.GetInterfaces: the `id` column of the CaptureInterface rows is not modelled, because the database assigns it; the other six fields are copied.
- The pcap file a capture writes, the module-level cleanup thread and `cleanup_stale_captures`: file I/O and time-driven background sweeps.
- `analyze_flow_data`, `analyze_protocol_distribution` and `analyze_tcp_flags` (utils/flow_analysis.py:269, utils/protocol_dissection.py:199,239): query-and-format functions whose shares are floats.
- Text-to-number conversion (`int()`, `float()`, `parseInt`, `parseFloat`) is given as its outcome: `Option<int>`/`Option<real>`, None standing for a ValueError or NaN.
- The early `return` of a page function whose table element is missing (`if (!tableBody) return`) and the DOM lookups of the badges: only the paths where the element exists are modelled, except for charts, whose absence is modelled.
- Database-assigned ids: a fresh capture id and the autoincrement key are the next integer.
- desktop_app.py, install.py, build_executable.py, main.py, app.py and config.py: process launching, packaging and wiring; models.py is used only as the field reference for the datatypes.
- SettingsRoutes.SettingsTable.UpdateSettings: a failing commit is modelled as an error response with status 500, whereas the source has no `try` block there and leaves the error to Flask's default 500 handler.
- AnomalyRoutes.StartDetection: a body sent without the JSON content type is not modelled, since Flask answers it with 415 or reads it as None depending on its version; a `method` or `sensitivity` that is JSON of another type than text and number (a `null`, say) is not modelled.
- AnomalyRoutes.ResolveAnomaly: `resolution_notes` is modelled as text or `null`; a number or other JSON value in it is not modelled. The content type is treated as for the start route.
- SettingsRoutes.SettingsTable.UpdateSettings: setting values are modelled as text; a JSON `null`, number or other value stored in the `value` column is not modelled. The content type is treated as for the start route.
- DashboardPage.Dashboard.UpdateRefreshInterval: the unused `refreshRate` clamp (static/js/dashboard.js:594) is not modelled, since nothing reads it.
- Common.Lower: folds ASCII letters only; Python's `lower()` and JavaScript's `toLowerCase()` also fold other scripts, which no value compared here contains.

## Findings

| source | as written | input that shows it | evidently intended | confidence | as-written member | corrected member |
|---|---|---|---|---|---|---|
| utils/flow_analysis.py:218 | the IPFIX header is unpacked with `!HHHIIQ`, which needs 22 bytes, from a 16-byte slice, so `struct.error` is raised for every message | any IPFIX message, even one of 16 or more bytes | the 16-byte header of section 3.1 of RFC 7011, `!HHIII` (version, length, export time, sequence number, observation domain) | not executed | `FlowAnalysis.IpfixAsWrittenAlwaysRaises` | `FlowAnalysis.IpfixCorrectedFields` |
| utils/flow_analysis.py:139,147 | the two parts of a v5 record are unpacked with `!IIIIHH` (20 bytes) from a 16-byte slice and `!IIIIIHBB` (24 bytes) from a 20-byte slice, so the first record always raises and the packet is rolled back | a v5 packet with count 1 and 72 bytes | formats matching the slices, decoding each 48-byte record | not executed | `FlowAnalysis.V5AsWrittenCommitsNothing` | `FlowAnalysis.V5FlowsRows` |
| static/js/dashboard.js:4,42,263 | `updateBandwidthChart` returns unless the global `bandwidthChart` is set, but `initCharts` only assigns `charts.bandwidth`, so the bandwidth chart is never drawn | a summary reply with one bandwidth point | guard on and draw into the chart `initCharts` created | not executed | `DashboardPage.BandwidthChartNeverDrawn` | `DashboardPage.BandwidthLineLatest` |
| static/js/flow_analysis.js:180-184,220-224 | the `finally` of start and stop re-enables the pressed button whatever the reply, so after a successful start the start button is enabled on a running collector (the same pattern is at static/js/anomaly_detection.js:290-294,330-334) | a successful start from the inactive state | restore the button from the recorded state, so exactly the button that changes the state is enabled | not executed | `PageCommon.SettledAsWrittenBreaksConsistency` | `PageCommon.SettledCorrectedKeepsConsistency` |
