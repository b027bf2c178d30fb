# Appweb gateways, configuration and client

A Dafny model of the parts of Appweb that carry state across events, with proofs of what they promise over whole runs.
Each part is given twice: as functions over values, about which the theorems are proved, and as classes whose methods
update their fields and arrays in place with the loops of the C code, proved to compute those functions.

| part | modules |
|---|---|
| FastCGI wire format (FastCGI Specification 1.0, sections 3.3, 3.4, 5.1-5.5) and the names kept from an app | Bytes, FastRecords, CgiNames, FastParams, FastOutbound |
| Record queue, 16-slot I/O vector and partial writes | PacketQueue, GatherWrite, FastConnector |
| Incremental record parser, response handler, dependence on how output is cut | FastInbound, FastGateway, FastSegmentation, OutputAnswers, OutputCuts, CutExamples, FastCuts, FastHandler |
| FastCGI app pool as atomic sections, and its list-level code | FastPool, FastPoolInvariant, FastPoolRuns, FastPoolService, FastPoolEffects |
| Gateway header parser (RFC 3875 section 6), values, the meaning of lines, and in place | CgiText, CgiResponse, CgiLines, CgiBuffer |
| CGI gateway, request body and program output | CgiStdin, CgiStdinRuns, CgiOutput, CgiReads, CgiReader |
| Configuration block parser | MaConfig, MaConfigTree, MaConfigAcceptance, MaConfigRoutes, MaConfigParser |
| HTTP client request loop | HttpClient |

`dafny verify dfyconfig.toml` checks everything.

What an app or a program has received is kept at its own end: only a write extends it, by what that write says it took, and
the theorems about delivery are about that.

The environment is a parameter everywhere: how many bytes a write takes, whether it blocks, is interrupted or fails,
what a read returns, whether a socket connects, when a process exits, which of several threads enters its locked
section next, what a server answers. A theorem about runs holds for every choice.

## Where the code does less than it seems to

Each item names the theorem that says exactly when the code meets the property, and a lemma with a concrete input where
that theorem does not show one by itself.

- The end-of-input record can be dropped unsent: `freeFastPackets` pops an END packet whose header the vector does not
  hold yet. Inputs: `PacketQueue.EndBeyondSlotLimitIsDropped`, and as a run `GatherWrite.EndQueuedBehindVectorIsLost`.
  Exact for a write in `GatherWrite.WriteOk`, and over a run in `GatherWrite.DrainLosesEnd`.
- The writable event is armed by the content count, which sees neither a queued prefix nor the rest of a popped END in
  the vector. Inputs, as runs: `GatherWrite.EndAloneIsUnarmed` and `GatherWrite.HalfEndIsUnarmed`. Exact in
  `GatherWrite.PendingIsUnarmed`, and for the event itself in `FastConnector.FastRequest.FastConnectorOutgoingService`.
- CRLF CRLF is searched for before LF LF, and a full buffer ends the search, so the same output can give different
  responses when it is cut differently. Inputs: `FastCuts.MixedCutsDiffer` and `CgiReads.MixedReadsDiffer`;
  `CutExamples.MixedBodyIsCutFree` is an output with both header ends that is not affected.
- Body is forwarded as it comes, so how much of a body that is longer than declared has been forwarded when the error
  comes depends on the cut: all of the declared length, less, or nothing. Inputs: `FastCuts.OverrunCutsShow` and
  `CgiReads.OverrunReadsDiffer`.
- Both are exact in `OutputCuts.CutsAgreeIffCutFree`, and for the two gateways in `FastCuts.RecordsAgreeIffCutFree` and
  `CgiReads.ReadsAgreeIffCutFree`; for stable output in `FastCuts.StableIsCutFree`.
- A short request body is meant to queue an abort record. `putFastRecords` frames that packet again as an empty STDIN
  record, which ends STDIN: the app reads a truncated body as a complete request. If the body was held, the replaced
  packet is held as well and PARAMS are never sent. Exact for both in `FastConnector.FastRequest.ShortRequest`; as
  records and bytes in `FastOutbound.ShortRequestReadsComplete` and `FastOutbound.BeginAloneIsNoRequest`.
- An interrupted write to a CGI program drops its packet. Input: `CgiStdinRuns.InterruptedWriteLosesAPacket`. Exact in
  `CgiStdinRuns.EndDeliversTheBody`.
- A failed read of a CGI program's output skips the length check, so a response without a header, or short of its
  declared length, can complete without error. Inputs: `CgiOutput.FailedBeforeHeader` and
  `CgiOutput.FailedShortOfDeclared`. Exact in `CgiOutput.CompleteIffNotCutShort`.
- `closeVirtualHostDirective` drops the error of `closeDirective`, so a stray `</VirtualHost>` passes in a file parsed
  without an enclosing state; `maParseConfig` always pushes one. Input: `MaConfigAcceptance.StrayHostCloser`. Exact in
  `MaConfigAcceptance.OneCloserTooMany`.
- Close tags are not matched with what they close. Input: `MaConfigAcceptance.RouteClosedByIf`. Exact in
  `MaConfigAcceptance.TagMattersIff`, and for whole files in `MaConfigAcceptance.TagsAreNotMatched` and
  `MaConfigAcceptance.AcceptedIffBalanced`.
- Reroute opens a route that was finalized and finalizes it again. Input: `MaConfigRoutes.RerouteFinalizesAgain`. Exact
  in `MaConfigRoutes.FinalizationsAreCounted`.
- A redirect beyond the limit leaves its target set for the next iteration. Exact in `HttpClient.RedirectTooMany` and
  `HttpClient.RedirectIsFollowed`.

## Model

| member | source | states |
|---|---|---|
| FastRecords.ReadAllOfStream | src/modules/fastHandler.c:1221-1266 | Section 3.3 records written one after the other read back as exactly those records, in order, with nothing left over. |
| FastRecords.ReadRecordOfBytes | src/modules/fastHandler.c:1221-1266 | The reader takes the version, type, 16-bit id, 16-bit length, padding and reserved byte back from any record and stops exactly behind its padding. |
| FastRecords.RecordLayout | src/modules/fastHandler.c:1231-1262 | Byte by byte: version 1, type, id and length with the high byte first, padding length, reserved byte, content, padding. |
| CgiNames.HttpIsCgiVarBlocked | src/http/httpLib.c:33093-33121 | A variable is blocked if and only if its name, in any letter case and with - for _, is one of the list or starts one of the four loader families; as much of it is looked at as fits the buffer. |
| CgiNames.HttpIsCgiHeaderBlocked | src/http/httpLib.c:33125-33134 | A header is blocked if and only if its name has an underscore, or its name behind HTTP_ is a blocked variable. |
| CgiNames.HttpIsHopByHopHeader | src/http/httpLib.c:29250-29267 | A header is hop-by-hop if and only if it is one of the nine names, in any letter case. |
| CgiNames.ProxyIsUnsafe | src/http/httpLib.c:33018-33069 | A Proxy header, in any letter case, is blocked: it would become HTTP_PROXY. |
| CgiNames.LoaderIsUnsafe | src/http/httpLib.c:33112-33119 | Every name that starts with LD_, LDR_, _RLD or DYLD_, in any letter case and with - for _, is blocked. |
| CgiNames.ConnectionIsKept | src/http/httpLib.c:29250-29267 | Connection, Transfer-Encoding and Upgrade headers, in any letter case, are hop-by-hop, and a header with an underscore is blocked. |
| FastParams.CopyFastInner | src/modules/fastHandler.c:1837-1856 | One variable: its name gets the prefix and it is left out exactly when the prefixed name is unsafe. |
| FastParams.CopyFastVars | src/modules/fastHandler.c:1859-1876 | One table of variables in order: variables without a value are left out, and of headers the hop-by-hop and unsafe ones; what is added is the encoding of the others. |
| FastParams.CopyRequestVars | src/modules/fastHandler.c:1302-1307 | The PARAMS packet is the encoding of the request parameters, the server variables and the headers, in that order, each table with its prefix and its tests. |
| FastParams.CopiedExactly | src/modules/fastHandler.c:1837-1876 | A pair is sent if and only if some variable has a value, gives that name behind the prefix and that value, the name is not unsafe, and, for a header, it is neither hop-by-hop nor an unsafe header. |
| FastParams.RequestIsSafe | src/modules/fastHandler.c:1302-1307 | No pair that the PARAMS packet encodes has an unsafe name, whichever table it is from. |
| FastParams.NothingUnsafe | src/modules/fastHandler.c:1837-1876 | Nothing that is sent has an unsafe name, and no header gets the app HTTP_PROXY in any letter case. |
| FastParams.DecodeLenOfEncoded | src/modules/fastHandler.c:1806-1819 | A length below 2^31, in its one or four byte form, decodes to itself whatever follows. |
| FastParams.PairsRoundTrip | src/modules/fastHandler.c:1825-1834 | Section 3.4: any list of pairs with lengths below 2^31 decodes from its encoding unchanged. |
| FastParams.LengthBoundIsSharp | src/modules/fastHandler.c:1806-1819 | Any length at all comes back modulo 2^31, so it comes back itself if and only if it is below 2^31. |
| FastOutbound.RequestAligned | src/modules/fastHandler.c:1231-1262 | Every record of a request is a valid record with at most 65528 content bytes and a total size that is a multiple of 8. |
| FastOutbound.TakeSplit | src/modules/fastHandler.c:1316-1329 | Content of any length, cut by putFastRecords, is one piece of its stream: no cut of non-empty content ends the stream. |
| FastOutbound.StdinReadsBack | src/modules/fastHandler.c:632-662 | STDIN read up to its empty record is the body in order, with nothing after it, if and only if the body is non-empty packets and one empty last packet. |
| FastOutbound.RequestRoundTrip | src/modules/fastHandler.c:1289-1329 | An application reading BEGIN, PARAMS and STDIN gets back the keep flag, the pairs and the body if and only if there are pairs and the body is well formed. |
| FastOutbound.RequestBytesRoundTrip | src/modules/fastHandler.c:1221-1329 | The same if-and-only-if from the connection's bytes, through the section 3.3 reader and the section 3.4 reader. |
| FastOutbound.KnownRequest | src/modules/fastHandler.c:1221-1329 | One request in all its bytes: BEGIN, PARAMS and STDIN of a small request with their headers, lengths and padding. |
| FastOutbound.AllOfOne | src/modules/fastHandler.c:1221-1329 | Every record of a request carries the id of the request. |
| FastOutbound.NeverAborted | src/modules/fastHandler.c:632-662 | No request, short ones included, puts an abort record on the connection: the abort packet is framed again as STDIN. |
| FastOutbound.ShortRequestReadsComplete | src/modules/fastHandler.c:632-662 | A body cut short and ended by the reframed packet reads back as a complete request with the truncated body if and only if there are pairs and the packets before the cut were not empty. |
| FastOutbound.BeginAloneIsNoRequest | src/modules/fastHandler.c:645-652 | BEGIN alone is no request: the reader finds nothing complete. |
| PacketQueue.FreedDropsExactly | src/modules/fastHandler.c:1720-1760 | Without END, freeing n bytes removes exactly the first n bytes of the queue, prefixes before contents, and empties it exactly when n is all of it. |
| PacketQueue.FreedAppend | src/modules/fastHandler.c:1729-1754 | Freeing works through the front of a queue before its back, and pops an END behind a front that has gone. |
| PacketQueue.FreedKeepsCover | src/modules/fastHandler.c:1644-1645 | A vector over the first packets, trimmed by the same count as the queue, is again whole packets at the front of the queue. |
| PacketQueue.EndBeyondSlotLimitIsDropped | src/modules/fastHandler.c:1678-1754 | Seven full records fill the vector; freeing their bytes then pops an END record that was never in it. |
| PacketQueue.CountMissesPrefixes | src/modules/fastHandler.c:1574-1576 | The queue has bytes to send and a content count of zero if and only if only prefixes are left in it. |
| GatherWrite.TrimmedBytes | src/modules/fastHandler.c:1766-1800 | Adjusting the vector drops exactly the written bytes and leaves no empty entry. |
| GatherWrite.WriteOk | src/modules/fastHandler.c:1644-1645 | Every partial write keeps queue and vector in step and conserves the queued bytes; END is lost if and only if the vector stopped short of it and the write took all before it. |
| GatherWrite.DiscardOk | src/modules/fastHandler.c:1622-1625 | Freeing nothing when only empty packets are left empties the queue and loses nothing. |
| GatherWrite.RunConserves | src/modules/fastHandler.c:1601-1800 | In every interleaving of queueing, vector building and partial writes before END is queued, bytes sent followed by bytes queued are the bytes ever queued, and the vector is a prefix of the queue. |
| GatherWrite.RunKeepsOk | src/modules/fastHandler.c:1601-1800 | Every run keeps the wire invariant: order, exactly-once, vector in step with the queue, only an END ever lost. |
| GatherWrite.CoveredEndIsNeverLost | src/modules/fastHandler.c:1668-1760 | Once the vector covers END, at every later step of the run everything queued is sent or still pending. |
| GatherWrite.EndQueuedBehindVectorIsLost | src/modules/fastHandler.c:1729-1754 | A run from the start in which END is queued while the vector holds an earlier record and is then dropped unsent. |
| GatherWrite.DoomStep | src/modules/fastHandler.c:1644-1645 | A write that leaves part of the vector neither dooms nor saves END, and the write that takes the last of it loses END if and only if the vector held all before END and not END. |
| GatherWrite.DrainLosesEnd | src/modules/fastHandler.c:1620-1760 | Over any run of partial writes that drains the vector, END is lost if and only if at its beginning the vector held everything before END and not END. |
| GatherWrite.PendingIsUnarmed | src/modules/fastHandler.c:1574-1576 | In every state that keeps the wire invariant, bytes are pending with a content count of zero if and only if a popped END still has bytes in the vector or only prefixes are queued. |
| GatherWrite.EndAloneIsUnarmed | src/modules/fastHandler.c:1574-1576 | A run of one step, END queued alone, that ends with bytes pending and nothing counted. |
| GatherWrite.HalfEndIsUnarmed | src/modules/fastHandler.c:1574-1754 | A run in which a write ends in the middle of END: END is popped, half of it is pending in the vector, and nothing is counted. |
| FastConnector.FastRequest.constructor | src/modules/fastHandler.c:1337-1369 | A new request has empty queue and vector, nothing held, and satisfies every invariant below. |
| FastConnector.AppSocket.WriteVector | src/modules/fastHandler.c:1625-1649 | What the app has grows by exactly the bytes of the vector that the write says it took, and by nothing if it was full or failed. |
| FastConnector.FastRequest.PutRecord | src/modules/fastHandler.c:1221-1266 | Appends one framed packet: header prefix, content, zero padding to 8; the count grows by the padded content; the queue is scheduled. |
| FastConnector.FastRequest.PutFastRecords | src/modules/fastHandler.c:1316-1329 | Appends the cut of the content into records; only the last carries the end flag. |
| FastConnector.FastRequest.BuildFastVec | src/modules/fastHandler.c:1668-1687 | The vector becomes the prefixes and contents of packets at the front, within its slots; it is empty only if the queue has no bytes. |
| FastConnector.FastRequest.FillVector | src/modules/fastHandler.c:1678-1685 | Takes whole packets while fewer than 14 slots are used, so the index stays below 16, and its entries are the bytes of those packets in order. |
| FastConnector.FastRequest.AddFastPacket | src/modules/fastHandler.c:1693-1703 | Adds one entry for a prefix and one for a content that have bytes. |
| FastConnector.FastRequest.AddToFastVector | src/modules/fastHandler.c:1709-1717 | Adds one entry at the index and counts its bytes. |
| FastConnector.FastRequest.FreeFastPackets | src/modules/fastHandler.c:1720-1760 | The loop leaves the queue that the value-level function says, and the count is that queue's content. |
| FastConnector.FastRequest.TrimSent | src/modules/fastHandler.c:1729-1748 | One packet loses sent bytes from the prefix first, then the content; a prefix that is all sent is dropped. |
| FastConnector.FastRequest.AdjustFastVec | src/modules/fastHandler.c:1766-1800 | The vector in place loses exactly the written bytes from its front and has no empty entry. |
| FastConnector.FastRequest.CompactFastVec | src/modules/fastHandler.c:1792-1798 | The entries that are left move down to the start of the vector unchanged. |
| FastConnector.FastRequest.Transmitted | src/modules/fastHandler.c:1643-1645 | After a write that the app has taken, both structures are trimmed by the same count, and what the app has is again what the value-level state says was sent. |
| FastConnector.FastRequest.SendQueue | src/modules/fastHandler.c:1620-1651 | The write loop ends for every socket behaviour with nothing left or a last write that found the socket full or broken; what the app has received is at every pass what was sent, so a short write keeps the rest; it is at end of file, or blocked, exactly when the last write said so. |
| FastConnector.FastRequest.SendOnce | src/modules/fastHandler.c:1620-1650 | One pass: it goes on exactly if a write took bytes; without a write the queue and the vector are empty. |
| FastConnector.FastRequest.WriteOnce | src/modules/fastHandler.c:1625-1650 | One write: what the app took is dropped from queue and vector and the rest stays; end of file and blocking are exactly what the write said. |
| FastConnector.FastRequest.EnableFastConnector | src/modules/fastHandler.c:1562-1595 | After it, bytes are pending on an open connection without the writable event armed if and only if the rest of a popped END is in the vector or only prefixes are queued. |
| FastConnector.FastRequest.FastConnectorOutgoingService | src/modules/fastHandler.c:1601-1662 | Keeps every invariant, what the app has received among them, for any writes; it stops only with nothing left or a full or broken socket; the read queue stays suspended exactly if the app is still behind; pending bytes are without the event exactly in the states of PendingIsUnarmed. |
| FastConnector.FastRequest.OpenRequest | src/modules/fastHandler.c:324-362 | Queues BEGIN, then PARAMS or, for a body of unknown length, holds the body. |
| FastConnector.FastRequest.PrepFastRequestParams | src/modules/fastHandler.c:1289-1312 | Queues the PARAMS records and the empty PARAMS record behind BEGIN. |
| FastConnector.FastRequest.ResendRequest | src/modules/fastHandler.c:457-461 | A request sent again is BEGIN, PARAMS, empty PARAMS and one empty STDIN record. |
| FastConnector.FastRequest.FastIncomingRequestPacket | src/modules/fastHandler.c:632-676 | Immediate or held, the records queued stay exactly what the body so far calls for; a held body is sent with PARAMS by a full end packet only, while a short one is held too and leaves the records at BEGIN; the read queue is suspended exactly when the queue is full. |
| FastConnector.FastRequest.PutHeld | src/modules/fastHandler.c:656-661 | Held body packets follow PARAMS in the order they came. |
| FastConnector.FastRequest.FastConnectorIO | src/modules/fastHandler.c:1498-1537 | Connection events keep the grammar, the wire invariant, what the app has received and flow control; what is read joins the bytes kept, is counted, and nothing is read after the end. |
| FastConnector.FastRequest.Delivered | src/modules/fastHandler.c:1601-1760 | End to end: what the writes have given the app is a prefix of the bytes of the request; once PARAMS and a well-formed body are queued and nothing is pending it reads back its pairs and the whole body. |
| FastConnector.FastRequest.ShortRequest | src/modules/fastHandler.c:632-662 | After a short body: what the app received followed by what is pending is all that was queued, without an abort; with PARAMS sent the app reads a complete request exactly when there are pairs and the packets before the cut were not empty; with the body still held the records stay at BEGIN and no request is ever read. |
| FastInbound.ParseSplit | src/modules/fastHandler.c:1401-1492 | Bytes that arrive later never change what was parsed before. |
| FastInbound.ReadsEqualBatch | src/modules/fastHandler.c:1401-1537 | Up to the first bad header, any cut of the stream into reads delivers the records and keeps the bytes that parsing the whole does. |
| FastInbound.KeptIsIncomplete | src/modules/fastHandler.c:1413-1472 | The stream is the delivered records followed by the bytes kept, and no complete record is in those. |
| FastInbound.StreamIsParsed | src/modules/fastHandler.c:1423-1462 | A stream of well-formed records of this request is delivered completely. |
| FastInbound.AcceptedHeader | src/modules/fastHandler.c:1430-1450 | A header is accepted exactly when its record has the right version, a response type and this request's id. |
| CgiText.FindIsMatch | src/modules/cgiResponse.c:35-45 | What a search finds is a match with no NUL in front of it. |
| CgiText.FindIsFirst | src/modules/cgiResponse.c:35-45 | Wherever a match with no NUL in front of it starts, the search finds that one or an earlier one, so it finds the first and fails only if there is none. |
| CgiText.FindInPrefix | src/modules/cgiResponse.c:35-45 | Searching what has arrived finds a pattern exactly when the whole pattern has arrived and is the first. |
| CgiResponse.ParsePrintedFields | src/modules/cgiResponse.c:62-131 | Printed field lines parse to what the fields mean, in order, up to the first refused one. |
| CgiResponse.TerminatorOfPrinted | src/modules/cgiResponse.c:35-45 | The header end found in printed output is the blank line behind the last field. |
| CgiResponse.PrintParse | src/modules/cgiResponse.c:21-135 | Round trip: printing a non-empty list of token names and values and a body, then parsing, applies the same list and leaves exactly the body. |
| CgiLines.LineIs | src/modules/cgiResponse.c:89-130 | What a line does, said of its name and value alone: location, status, content-type and content-length in any letter case do their own, with a status of three digits from 200 to 599 and a length in decimal digits below 2^63; transfer-encoding and all other statuses and lengths are refused; any other name is a header. |
| CgiLines.StatusIs | src/http/httpLib.c:30408-30434 | A status text is accepted with a code from 200 on if and only if it is the three digits of the code, from 200 to 599, and then nothing or white space. |
| CgiLines.LengthIs | src/http/httpLib.c:25668-25692 | A length text is a number if and only if it is one or more decimal digits of a number below 2^63, and then it is that number. |
| CgiLines.NumberOfDecimal | src/http/httpLib.c:25668-25692 | The number of the decimal digits of a number is that number. |
| CgiLines.LinesParse | src/modules/cgiResponse.c:21-135 | Round trip from what lines say: printed with a body, they are taken for exactly that, in order, and the body is left. |
| CgiLines.OpsRoundTrip | src/modules/cgiResponse.c:21-135 | Round trip from ops: statuses, lengths, locations, content types and other headers, each printed by its own name and value, come back in order, with the body. |
| CgiLines.RefusedLineFails | src/modules/cgiResponse.c:62-131 | The first refused line makes the response a failure: the lines before it have taken effect, those behind it not. |
| CgiLines.StatusLineParses | src/modules/cgiResponse.c:141-163 | Output with a status line: its code, then its lines, then its body, for codes 200 to 599; any other three digits are a failure. |
| CgiLines.StatusLineAlone | src/modules/cgiResponse.c:35-60 | A status line without a header end is waited for, and at the limit or the end of output taken with all behind it as body. |
| CgiLines.SplitLineFails | src/modules/cgiResponse.c:79-85 | A value with a carriage return inside it is refused. |
| CgiLines.BadNameFails | src/modules/cgiResponse.c:62-70 | A line whose name is no token is refused. |
| CgiLines.HeaderIs | src/modules/cgiResponse.c:165-181 | Output starts with a header if and only if it starts with a token and a colon. |
| CgiLines.BodyOnlyParses | src/modules/cgiResponse.c:35-60 | Output that starts with neither a status line nor a header is all body, once a header end, the limit or its end has come; until then more is asked for. |
| CgiBuffer.MprBuf.constructor | src/modules/cgiResponse.c:21-32 | A buffer holding the given content with room for the terminating NUL. |
| CgiBuffer.MprBuf.SnContains | src/modules/cgiResponse.c:35-36 | The in-place search returns the offset of the first match before a NUL, or -1. |
| CgiBuffer.MprBuf.StringAtStart | src/modules/cgiResponse.c:183-204 | The C string at the buffer's start. |
| CgiBuffer.MprBuf.CutAt | src/modules/cgiResponse.c:192-200 | Writing a NUL at the delimiter and moving past it splits the content there and changes no other byte. |
| CgiBuffer.MprBuf.GetTokenInPlace | src/modules/cgiResponse.c:183-204 | The token and the content left are those of the value-level token function; no byte but the delimiter's is changed. |
| CgiBuffer.ContainsEol | src/modules/cgiResponse.c:79-85 | Finds a CR or LF in a value exactly when there is one. |
| CgiBuffer.TrimValue | src/modules/cgiResponse.c:71-78 | A value loses its leading white space and trailing line end, and nothing else. |
| CgiBuffer.NextToken | src/modules/cgiResponse.c:183-204 | Cutting a token out of the block leaves everything from the block's NUL on as it was. |
| CgiBuffer.ParseFieldsInPlace | src/modules/cgiResponse.c:62-131 | The destructive field loop applies what the value-level meaning of the block says and never touches the body. |
| CgiBuffer.ParseStatusLineInPlace | src/modules/cgiResponse.c:141-163 | The destructive status line parser accepts the same lines with the same code and leaves the same rest. |
| CgiBuffer.ParseWithBlock | src/modules/cgiResponse.c:54-134 | With a complete block the in-place parse gives the outcome of the block and the body behind it. |
| CgiBuffer.ParseWithoutBlock | src/modules/cgiResponse.c:35-60 | Without a header end: asks for more with the content unchanged, or treats the output as body or status line. |
| CgiBuffer.MaParseCgiResponse | src/modules/cgiResponse.c:21-135 | The in-place parser computes Parse of the content; when done the buffer holds exactly the body, when more is needed it is unchanged. |
| FastGateway.RunLength | src/modules/fastHandler.c:827-865 | In every run the body forwarded to the client stays within the declared length. |
| FastGateway.EndSendsDeclared | src/modules/fastHandler.c:764-865 | An end of output that completes an open response without error or redirect has sent exactly the declared length. |
| FastGateway.StdoutLength | src/modules/fastHandler.c:808-843 | Each STDOUT record keeps the length invariant, whatever its content parses to. |
| FastGateway.EndLength | src/modules/fastHandler.c:764-806 | Each END_REQUEST record keeps the length invariant, held output included. |
| FastGateway.RespondExactly | src/modules/fastHandler.c:737-762 | STDOUT and END_REQUEST records, by their numbers, go to their handlers; any other changes nothing. |
| FastGateway.EndExactly | src/modules/fastHandler.c:764-806 | An end shorter than eight bytes, or with protocol status 1, 2 or 3, is an error and forwards nothing; any other completes the response, and status 0 is noted. |
| FastGateway.CloseExactly | src/modules/fastHandler.c:845-865 | Completing a response that has its header raises an error if and only if it is open and has not sent what it declared. |
| FastGateway.DeclaredIsLast | src/modules/cgiResponse.c:89-130 | The declared length is that of the last Content-Length line. |
| FastSegmentation.ParseExtend | src/modules/cgiResponse.c:35-134 | Once the header end has been found, more output behind it only extends the body. |
| FastSegmentation.StableIsFoundOnArrival | src/modules/cgiResponse.c:35-45 | In stable output the header end is found exactly when it has arrived. |
| FastSegmentation.AnswerStands | src/modules/cgiResponse.c:35-134 | In stable output the parser's answer, once given, stands for all that follows. |
| FastSegmentation.FeedReached | src/modules/fastHandler.c:808-843 | Once the parser has answered, any further STDOUT records leave the response that the answer and all output call for: which fields and body, and for a body that is too long an error behind some part of it within the declared length. |
| FastSegmentation.CloseReached | src/modules/fastHandler.c:796-865 | At the end the client sees what the answer means: the reply, an error in place of it, or, if a part had been forwarded, the reply broken off behind that part. |
| FastSegmentation.StdoutMerge | src/modules/fastHandler.c:808-843 | Another STDOUT record takes the response to a part of stable output to the response to the longer part, whatever records it came in. |
| FastSegmentation.RecordsIndependent | src/modules/fastHandler.c:737-843 | However stable output is cut into STDOUT records, the client sees the response to the whole; if the body runs over its declared length, it sees the reply broken off within that length, or an error in its place. |
| FastSegmentation.SegmentationIndependent | src/modules/fastHandler.c:1401-1537 | End to end: the same for any socket reads of any STDOUT cut, overrunning output included. |
| FastSegmentation.PrintedIsStable | src/modules/cgiResponse.c:35-45 | Well-formed CRLF output within the header limit is stable. |
| FastSegmentation.PrintedResponse | src/modules/fastHandler.c:737-865 | The client of a printed response gets exactly its fields and body if and only if every field is accepted and the declared length, if any, is the body's; a redirect needs an empty body. |
| OutputCuts.FeedCut | src/modules/fastHandler.c:808-843 | Any cut has its output decided at one boundary, less than a piece behind the first arrival of a header end or of the limit. |
| OutputCuts.ViewOfCut | src/modules/fastHandler.c:737-865 | What a cut shows is what the parser's answer at a possible boundary means, broken off somewhere within the declared length if its body runs over; or what the parser makes of undecided output at its end. |
| OutputCuts.ViewAt | src/modules/fastHandler.c:737-865 | For every possible boundary there is a cut that shows what the parser's answer there means. |
| OutputCuts.OverrunView | src/modules/fastHandler.c:827-843 | For a reply that declares n bytes and has more, there is a cut that breaks it off behind n bytes, and one that breaks it off behind n - 1. |
| OutputCuts.OverrunCutsDiffer | src/modules/fastHandler.c:827-843 | A reply that runs over a declared length above zero is cut differently with different results, wherever it is decided. |
| OutputCuts.CutsAgreeIff | src/modules/fastHandler.c:737-865 | All cuts show the same if and only if the answers at all possible boundaries mean the same response and none runs over. |
| OutputAnswers.FieldsStopAtBlank | src/modules/cgiResponse.c:62-131 | The fields of a block end at its first blank line whatever comes behind it. |
| OutputAnswers.GoodCodeIff | src/modules/cgiResponse.c:141-163 | From a boundary where the status line is refused on, it is accepted at some later one if and only if the last digit of a good status code arrives there. |
| OutputCuts.MixedAnswers | src/modules/cgiResponse.c:35-134 | With LF LF in front of CRLF CRLF and lines that do not run over, the two header ends give different responses if and only if the lines are accepted, do not redirect, and do not declare zero with body behind both; or a status line has its space only behind LF LF and shows something at CRLF CRLF. |
| OutputCuts.LimitFirst | src/modules/cgiResponse.c:35-60 | When the header limit comes first, output without a status line is answered differently at a later boundary if and only if header lines have ended there. |
| OutputCuts.StatusCase | src/modules/cgiResponse.c:35-60 | When the limit comes first and there is a status line, all possible boundaries agree if and only if: good and ended, no header ends in reach; good and not ended, no other boundary is in reach; refused, it has ended, or no good code is completed in reach and no lines ending in reach show anything. |
| OutputCuts.CutsAgreeIffCutFree | src/modules/fastHandler.c:737-865 | The response depends on the cut if and only if the output fails a condition on its bytes: where its header ends are, what the lines before them do, and how much body they declare against how much there is. For pieces of any size limit of at least two. |
| FastCuts.RecordsAgreeIffCutFree | src/modules/fastHandler.c:737-865 | The same for cuts into STDOUT records with STDERR records between them: all of them show the client the same if and only if the output meets the condition. |
| FastCuts.StableIsCutFree | src/modules/fastHandler.c:737-865 | Stable output meets the condition if and only if its body does not run over the length it declares. |
| FastCuts.ReadsShowTheCut | src/modules/fastHandler.c:1401-1537 | Any socket reads of the records of a cut deliver those records in order, so what is forwarded, and behind which of them an error comes, is the cut's. |
| FastCuts.MixedCutsDiffer | src/modules/cgiResponse.c:35-45 | One output, two cuts, two different responses without error: a body of five bytes or an empty one. |
| FastCuts.OverrunCutsShow | src/modules/fastHandler.c:827-843 | One byte declared and two sent: cut between them the client has the whole declared reply forwarded, which is then broken off; in one record it gets an error instead. |
| CutExamples.MixedBodyIsCutFree | src/modules/cgiResponse.c:35-60 | An output with both header ends that no cut changes, since it starts with no header. |
| FastHandler.FastResponder.constructor | src/modules/fastHandler.c:1337-1369 | A new response: nothing parsed, no declared length, nothing forwarded. |
| FastHandler.FastResponder.Apply | src/modules/cgiResponse.c:89-130 | Response lines take effect in order: the last Content-Length is the declared one, a Location redirects. |
| FastHandler.FastResponder.CheckFastLength | src/modules/fastHandler.c:851-865 | Raises an error exactly when an open response's declared length is not what was forwarded. |
| FastHandler.FastResponder.ForwardFastBody | src/modules/fastHandler.c:827-843 | Forwards body while within the declared length; bytes beyond it are never forwarded. |
| FastHandler.FastResponder.HandleStdout | src/modules/fastHandler.c:808-823 | STDOUT content is joined to held output until the header block parses, then forwarded. |
| FastHandler.FastResponder.HandleEndRequest | src/modules/fastHandler.c:764-806 | END_REQUEST: short or refused records are errors, else held output is parsed and the length reconciled. |
| FastHandler.FastResponder.HandleHeld | src/modules/fastHandler.c:796-806 | Held output at the end is parsed as all there is; the response completes only if it parses. |
| FastHandler.FastResponder.FastHandlerResponse | src/modules/fastHandler.c:737-824 | Dispatches a record to its handler; STDERR changes nothing the client sees. |
| FastHandler.FastResponder.FastConnectorIncomingService | src/modules/fastHandler.c:1401-1492 | The loop over buffered bytes delivers exactly the batch parser's records to the response, keeps its rest, and errs at a bad header. |
| FastPoolInvariant.ReleaseOk | src/modules/fastHandler.c:507-537 | Giving back one use restores the whole pool invariant: lists, counts, limits, and no busy app is killed. |
| FastPoolInvariant.QuietStep | src/modules/fastHandler.c:1108-1159 | A step that registers, selects and releases nothing keeps the whole invariant. |
| FastPoolInvariant.AcquiredLists | src/modules/fastHandler.c:918-984 | Taking an idle, new or shared app keeps the lists disjoint and the app limit. |
| FastPoolInvariant.ReleasedWithinMax | src/modules/fastHandler.c:507-537 | The last release of an app frees its place or makes it reusable, never both, so active and reusable idle apps stay within maxApps. |
| FastPoolInvariant.StopsConnecting | src/modules/fastHandler.c:384-403 | A client that stops connecting leaves its app one use to give back. |
| FastPoolRuns.PickOk | src/modules/fastHandler.c:918-984 | getFastApp's selection keeps the invariant. |
| FastPoolRuns.RegisterOk | src/modules/fastHandler.c:384-392 | Registering under the lock keeps the invariant, and the request is not lost to an earlier exit. |
| FastPoolRuns.ConnectFailsOk | src/modules/fastHandler.c:394-403 | A failed connect, or an app that exited first, releases the app and keeps the invariant. |
| FastPoolRuns.RetryOk | src/modules/fastHandler.c:425-464 | The one-shot retry keeps the invariant: the app is retired, the request leaves it, the use is given back. |
| FastPoolRuns.CloseOk | src/modules/fastHandler.c:471-501 | Closing a request keeps the invariant. |
| FastPoolRuns.ReapOk | src/modules/fastHandler.c:1108-1142 | The reaper keeps the invariant and posts an event for each registered request. |
| FastPoolRuns.PruneOk | src/modules/fastHandler.c:581-606 | Killing an idle app keeps the invariant; it has no requests. |
| FastPoolRuns.ShutdownOk | src/modules/fastHandler.c:299-318 | Killing every app at shutdown keeps the invariant. |
| FastPoolRuns.StepKeeps | src/modules/fastHandler.c:371-1159 | Every enabled step of the protocol keeps the invariant. |
| FastPoolRuns.RunKeeps | src/modules/fastHandler.c:371-1159 | Every reachable state satisfies the invariant, for all interleavings of the locked sections. |
| FastPoolRuns.PoolLimits | src/modules/fastHandler.c:918-984 | In every reachable state active and reusable idle apps are at most maxApps, the lists are disjoint, an app is active exactly when in use, at most multiplex times, and an idle app has no use. |
| FastPoolRuns.UseIsCounted | src/modules/fastHandler.c:371-537 | In every reachable state an app's use count is its registered requests plus its connecting selections; outside shutdown no app with registered requests was ever killed. |
| FastPoolRuns.EachAcquireIsReleased | src/modules/fastHandler.c:371-537 | In every reachable state a client's selections exceed its releases by one exactly while it connects or is registered. |
| FastPoolRuns.NothingLeaks | src/modules/fastHandler.c:371-537 | In a state of the pool invariant in which every client has finished, or waits without an app, no app is active and every use count is zero. |
| FastPoolRuns.AlwaysCanFinish | src/modules/fastHandler.c:371-537 | From every reachable state some run of the protocol finishes all clients, and at its end no app is active or in use. |
| FastPoolRuns.AlwaysCanBeServed | src/modules/fastHandler.c:371-537 | No capacity is ever lost: in every reachable state a client that waits for an app can still be registered on one, by a run in which it neither gives up nor fails to connect. |
| FastPoolRuns.ExitIsTold | src/modules/fastHandler.c:1108-1142 | No lost exit: a request registered on a reaped app has a reap event posted that can be delivered. |
| FastPoolRuns.RunIsLater | src/modules/fastHandler.c:371-731 | Along a run requests stay on record, those that left stay away and read nothing more, and retired apps stay retired. |
| FastPoolRuns.StaleEventsDoNothing | src/modules/fastHandler.c:714-731 | Once a request has left its app, delivering any event for it, however late, changes nothing. |
| FastPoolRuns.SendsAtMostTwice | src/modules/fastHandler.c:425-464 | One client open is sent to at most two apps, the second a different one and only after the first brought no bytes, with nothing responded, all input seen, no body and a safe method. |
| FastPoolEffects.NextMeans | src/modules/fastHandler.c:299-1159 | Every step of the protocol does exactly what a second account says, field by field and without the functions that the steps are built from. |
| FastPoolEffects.DeliverExactly | src/modules/fastHandler.c:714-731 | An event of a lost app changes something if and only if the request is registered, was not sent again, no byte was read, nothing responded, all input of a bodyless safe request seen, and the client still on it; then the client selects again, the request has left, the app is marked, and one use is given back. |
| FastPoolEffects.ReleaseGivesBack | src/modules/fastHandler.c:507-537 | Giving back a use: any but the last only counts; the last takes the app off the active list, retires a marked or worn one, and makes one that is neither marked nor dead idle. |
| FastPoolEffects.DoomedExactly | src/modules/fastHandler.c:589-603 | A maintenance pass kills a launched idle app if and only if it is marked, or expired while the count, less the expired ones before it, is above the minimum. |
| FastPoolEffects.KillEachExactly | src/modules/fastHandler.c:1148-1159 | Killing apps marks exactly the launched ones among them, and changes nothing else. |
| FastPoolService.SelectionIsAStep | src/modules/fastHandler.c:918-984 | Every choice that getFastApp can make is an enabled step of the protocol for the client that asked. |
| FastPoolService.RemoveItem | src/modules/fastHandler.c:507-537 | Removing an item from a list without duplicates removes exactly it and leaves the others in order. |
| FastPoolService.FinishConnectKeeps | src/modules/fastHandler.c:384-403 | The section that ends connecting keeps the pool invariant, whatever the socket did. |
| FastPoolService.DropKeeps | src/modules/fastHandler.c:425-501 | Closing a registered request, and an event that may retry it, keep the pool invariant. |
| FastPoolService.Fast.MayFinishConnect | src/modules/fastHandler.c:384-403 | The pool invariant gives what the section needs: the client's app is active and in use. |
| FastPoolService.Fast.MayDropRequest | src/modules/fastHandler.c:425-501 | The pool invariant gives what closing, retrying and lost requests need: the client is known, and the app is active and in use. |
| FastPoolService.Fast.constructor | src/modules/fastHandler.c:540-565 | A new pool has no apps and no requests. |
| FastPoolService.Fast.GetFastApp | src/modules/fastHandler.c:918-984 | The selection loop: a reusable idle app first, else a started one within the limit, else a usable active app below multiplex, else failure or waiting, each exactly when nothing before it applies. |
| FastPoolService.Fast.FindIdle | src/modules/fastHandler.c:931-938 | Finds the first reusable idle app, or there is none. |
| FastPoolService.Fast.FindShared | src/modules/fastHandler.c:953-957 | Finds the first active app that can be shared, or every active app is full, dead or dying. |
| FastPoolService.Fast.KillFastApp | src/modules/fastHandler.c:1148-1159 | Marks a launched app destroyed and changes nothing else. |
| FastPoolService.Fast.ReleaseFastApp | src/modules/fastHandler.c:507-537 | Gives back one use; the last one retires a worn or marked app or makes it idle. |
| FastPoolService.Fast.FinishConnect | src/modules/fastHandler.c:384-403 | The locked part of connecting: register on a live app with a socket, else retire an exited app, release it, and try once more or finish. |
| FastPoolService.Fast.CloseRequest | src/modules/fastHandler.c:471-501 | The request leaves its app and the app is released. |
| FastPoolService.Fast.RetryRequest | src/modules/fastHandler.c:444-451 | The app is marked, the request leaves it, the app is released and the client selects again. |
| FastPoolService.Fast.RequestLost | src/modules/fastHandler.c:714-731 | An event for a request that has left changes nothing; else a retry happens exactly when the retry test holds. |
| FastPoolService.Fast.ReapSignalHandler | src/modules/fastHandler.c:1108-1142 | A collected process leaves the idle list, is destroyed, and every registered request gets an event. |
| FastPoolService.Fast.FastMaintenance | src/modules/fastHandler.c:581-606 | The pruning loop kills, in list order, exactly the idle apps marked for it and expired ones while the count is above the minimum. |
| FastPoolService.Fast.FastTerminator | src/modules/fastHandler.c:299-318 | Kills every launched app of both lists and no other. |
| FastPoolService.DoomedAreIdle | src/modules/fastHandler.c:593-603 | Pruning kills only idle, launched apps that are marked or expired. |
| FastPoolService.AgeKillsAreBounded | src/modules/fastHandler.c:589-603 | At most count less minApps apps are killed for their age, and none when the count is not above minApps. |
| FastPoolService.KillEachKeeps | src/modules/fastHandler.c:581-606 | A maintenance pass keeps the pool invariant. |
| MaConfig.ParseFile | src/config.c:185-205 | After an include, whatever happened in it, the including state is current again, line number included, and no state around it changed. |
| MaConfig.Exec | src/config.c:208-272 | Whatever the lines, the loop leaves the states below the floor alone and keeps enabled states inside enabled states. |
| MaConfig.Directive | src/config.c:241-250 | Every directive keeps the nesting of enabled states and pops at most one state. |
| MaConfig.AttachAll | src/config.c:3252-3266 | The host is attached exactly once to each endpoint before the first that cannot be resolved, in order; it succeeds if and only if all can be. |
| MaConfigTree.ExecAppend | src/config.c:217-255 | Parsing two pieces of a file is parsing the first and then the second from where it stopped. |
| MaConfigTree.SkipNodes | src/config.c:230-239 | The lines of any well-nested tree in a disabled region do nothing and leave the stack as it was. |
| MaConfigTree.RunNodes | src/config.c:208-272 | The lines of any tree in an enabled region do what the recursive evaluator does, succeed exactly when it does, and leave the stack as it was. |
| MaConfigTree.RunConditional | src/config.c:1373-1386 | If and else: exactly the branches the evaluator takes are applied, an unknown condition is an error. |
| MaConfigTree.RunBranches | src/config.c:1021-1030 | Each else turns the following branch on or off inside an enabled block. |
| MaConfigTree.RunBlock | src/config.c:805-821 | A block's body runs against its route or host, and the route is finalized behind everything in the body. |
| MaConfigTree.RunFiles | src/config.c:1286-1316 | A list of includes is parsed in order up to the first failure. |
| MaConfigTree.RunFile | src/config.c:185-272 | The refinement: parsing the lines of a file tree gives the evaluator's events, the evaluator's success, and the starting stack, for every well-nested tree with includes. |
| MaConfigTree.EnterIf | src/config.c:1373-1386 | An if line adds one conditional state that is on only in an enabled block with a true condition; an unknown condition fails in an enabled block only. |
| MaConfigTree.EnterBlock | src/config.c:2418-2441 | An opening line adds one state with the block's new route or host; if it fails the state it pushed stays, above the unchanged ones. |
| MaConfigTree.Turn | src/config.c:1021-1030 | An else line turns the branch on exactly when the block around is on and the branch was off. |
| MaConfigTree.Leave | src/config.c:805-821 | A closing line brings back the stack from before the block was entered, with the line count, and finalizes the block's route if it is not the one around. |
| MaConfigTree.LeaveHost | src/config.c:3244-3270 | A closing host line attaches the host to its endpoints first and fails if one cannot be resolved. |
| MaConfigAcceptance.LineEffect | src/config.c:805-821 | Openers add one state, closers remove one, all other lines none; line numbers and files of the states carry over. |
| MaConfigAcceptance.ExecSucceeds | src/config.c:217-255 | The loop reaches the end exactly when no directive fails and no prefix closes more than it opened. |
| MaConfigAcceptance.AcceptedIffBalanced | src/config.c:208-272 | A file under a current state is accepted if and only if no directive fails, the balance of processed openers and closers never goes below zero and ends at zero; the caller's states come back in any case. |
| MaConfigAcceptance.LineNumbers | src/config.c:217-255 | Line k of a file is processed with line number k + 1, through every block and include before it. |
| MaConfigAcceptance.EnabledAllTheWayDown | src/config.c:1021-1030 | An enabled state has only enabled states around it. |
| MaConfigAcceptance.OneCloserTooMany | src/config.c:3244-3270 | A closer with no block open in its file is accepted if and only if it is </VirtualHost> in a file with no enclosing state and each of the endpoints of the host resolves. |
| MaConfigAcceptance.StrayHostCloser | src/config.c:3268-3269 | The single line </VirtualHost>: accepted by maParseFile without a state, refused under one; every other closer is refused in both. |
| MaConfigAcceptance.RouteClosedByIf | src/config.c:805-821 | The file <Route> </If> is accepted and the route is finalized. |
| MaConfigAcceptance.TagMattersIff | src/config.c:805-821 | Two plain closing tags have the same effect on a state if and only if the state is enabled or they are both </If> or both not. |
| MaConfigAcceptance.TagsAreNotMatched | src/config.c:208-272 | Exchanging closing tags, other than </VirtualHost>, for others, where the state is enabled or the kind stays, changes nothing of a file's run. |
| MaConfigRoutes.FinalizationsAreCounted | src/config.c:805-821 | In an accepted configuration a route is finalized once for its creation and once for each evaluated Reroute that targets it from another route; so a created route is finalized once if and only if no such Reroute is evaluated, and then nothing is applied to it afterwards. |
| MaConfigRoutes.NodesGood | src/config.c:805-821 | Any tree only adds events; one that is accepted finalizes each route once for its creation and once for each reopening, and a route it does not reopen is closed for good. |
| MaConfigRoutes.RerouteFinalizesAgain | src/config.c:2344-2369 | A concrete configuration in which Reroute applies directives to a finalized route and finalizes it again. |
| MaConfigParser.ConfigParser.constructor | src/config.c:3583-3603 | The outermost state: enabled, no file. |
| MaConfigParser.ConfigParser.MaPushState | src/config.c:3606-3627 | A new object linked to the current state becomes current; the states of the chain around it stay the same objects and unchanged. |
| MaConfigParser.ConfigParser.MaPopState | src/config.c:3630-3641 | The state that prev links to becomes current, the same object as before the push, and takes over the line number; the outermost state is not popped. |
| MaConfigParser.ConfigParser.PopFileState | src/config.c:199-203 | Popping a file's own state, whatever state is current by then, makes the including state current again with its saved line number, however many states a failed file left above. |
| MaConfigParser.ConfigParser.CloseVirtualHostDirective | src/config.c:3244-3270 | Attaches the host to each endpoint up to the first that fails; the result of closing is ignored. |
| MaConfigParser.ConfigParser.RunDirective | src/config.c:241-250 | Each kind of line does its directive's step. |
| MaConfigParser.ConfigParser.IncludeDirective | src/config.c:1286-1316 | Parses the files in order and stops at the first that fails. |
| MaConfigParser.ConfigParser.MaParseFile | src/config.c:185-205 | Parses a file in a state of its own; afterwards the chain of states is the caller's, object for object, with the caller's line number, whether the file succeeds or fails. |
| MaConfigParser.ConfigParser.ParseFileInto | src/config.c:208-272 | Opens the file, runs its lines above the floor, and rejects unclosed blocks. |
| MaConfigParser.ConfigParser.RunLines | src/config.c:217-255 | The loop over lines, from linked states to the value-level run; the states below the floor stay the same objects. |
| MaConfigParser.ConfigParser.PassLine | src/config.c:217-255 | One line, then the line count, unless the line failed or popped the file's own state. |
| CgiStdin.ProgramInput.WriteCmd | src/modules/cgiHandler.c:350 | What the program has grows by exactly the bytes that the write says it took, and by nothing otherwise. |
| CgiStdin.CgiInput.constructor | src/modules/cgiHandler.c:94-108 | A gateway with an open standard input, an empty queue and no program yet. |
| CgiStdin.CgiInput.Count | src/modules/cgiHandler.c:310-312 | The queue count is the content that is queued. |
| CgiStdin.CgiInput.Offer | src/modules/cgiHandler.c:349-351 | Each write is of the bytes offered and with its result, and what the program has is what those writes gave it. |
| CgiStdin.CgiInput.DiscardQueueData | src/modules/cgiHandler.c:358-362 | Discarding removes every data packet. |
| CgiStdin.CgiInput.WritePacket | src/modules/cgiHandler.c:345-370 | What one write leaves of the queue: interrupted drops the packet, a full pipe puts it back and suspends, an error closes and discards, a short write keeps the rest. |
| CgiStdin.CgiInput.DrainQueue | src/modules/cgiHandler.c:334-372 | The loop over packets gives the value-level result for any write results, and what the program has is what the writes that were made gave it. |
| CgiStdin.CgiInput.BrowserToCgiService | src/modules/cgiHandler.c:319-389 | Drains the queue, waits for writability exactly when content is left, and resumes the read queue when there is room. |
| CgiStdin.CgiInput.BrowserToCgiData | src/modules/cgiHandler.c:270-313 | Queues a packet, stops the program on a short body, starts a deferred program at the end packet, and suspends the read queue when behind. |
| CgiStdinRuns.DrainKeeps | src/modules/cgiHandler.c:334-372 | Any writes keep the body conserved: taken followed by queued is the body, or a prefix was taken before an error. |
| CgiStdinRuns.StartKeeps | src/modules/cgiHandler.c:146-175 | Starting, or putting the start off for a body of unknown length, keeps conservation and flow control. |
| CgiStdinRuns.WritableKeeps | src/modules/cgiHandler.c:451-454 | A writable event keeps conservation and flow control. |
| CgiStdinRuns.RunKeeps | src/modules/cgiHandler.c:270-389 | Every run of packets, writes and events keeps conservation and flow control. |
| CgiStdinRuns.DeliveredIsPrefix | src/modules/cgiHandler.c:319-389 | In every run what leaves the queue is an in-order prefix of the body: what the results of the writes say the program took, and what interrupted writes skipped; so without interrupted writes the program has a prefix of the body. |
| CgiStdinRuns.EndDeliversTheBody | src/modules/cgiHandler.c:334-338 | When the end packet closes standard input, what the results of the writes say the program took is the whole body if and only if no interrupted write skipped a byte; no write error has happened. |
| CgiStdinRuns.InterruptedWriteLosesAPacket | src/modules/cgiHandler.c:353-354 | A run from a gateway just opened in which an interrupted write loses a packet: the end of input follows, and by the results of the writes the program has the first packet only. |
| CgiStdinRuns.HeldBackIsDrained | src/modules/cgiHandler.c:305-312 | While the read queue is held back the write queue is full, and it can be serviced or its writable event is awaited. |
| CgiStdinRuns.DrainEmpties | src/modules/cgiHandler.c:339-372 | The loop ends with an empty queue, or a last write that found the pipe full or failed. |
| CgiStdinRuns.ServiceExactly | src/modules/cgiHandler.c:319-389 | A running program has its queue drained; the writable event is awaited exactly if content is left, and the read queue stays suspended exactly if the gateway is still behind. |
| CgiStdinRuns.ReceivedExactly | src/modules/cgiHandler.c:270-313 | A packet is queued behind the others and nothing is written, unless it is a full end that starts a deferred program; a short end kills the program with an error; the read queue is suspended exactly as far as the queue is full. |
| CgiStdinRuns.StartedExactly | src/modules/cgiHandler.c:146-175 | The program runs unless a body of unknown length has not come in, and then the start is put off. |
| CgiStdinRuns.WritableExactly | src/modules/cgiHandler.c:451-454 | After the writable event the queue can be serviced again. |
| CgiOutput.RunLength | src/modules/cgiHandler.c:485-597 | Every callback keeps the forwarded body within the declared length and the count exact. |
| CgiOutput.CompleteIffNotCutShort | src/modules/cgiHandler.c:527-597 | In every run a completed response that is no error and no redirect has its header, and exactly the declared body if a length was declared, if and only if no read of stdout failed before the header or short of the declared length. |
| CgiOutput.FailedReadCompletes | src/modules/cgiHandler.c:517-525 | A failed read closes stdout without the length check, so a normal exit then completes the response as it stands. |
| CgiOutput.FailedBeforeHeader | src/modules/cgiHandler.c:517-525 | A concrete run from the start: a failed read and a good exit complete a response with no header and no body, without error. |
| CgiOutput.FailedShortOfDeclared | src/modules/cgiHandler.c:517-525 | A concrete run from the start: five bytes declared, one sent, the read fails, and the response completes without error. |
| CgiOutput.OneReadExactly | src/modules/cgiHandler.c:516-553 | One read: interrupted is made again, a full pipe ends the loop, a failure and the end of stderr close the channel, stderr is passed over. |
| CgiOutput.BodyExactly | src/modules/cgiHandler.c:563-572 | Body of an open response is forwarded and the loop goes on, unless it runs over the declared length: then none of it is, the loop ends, and it is an error unless a Location is kept. |
| CgiOutput.HeaderExactly | src/modules/cgiHandler.c:554-572 | Header bytes by what the parser makes of them and those held: an incomplete header is held and the loop ends, a refused one is an error, and what is behind a complete one is body. |
| CgiOutput.FinalForwardsNothing | src/modules/cgiHandler.c:563 | Nothing is forwarded to a client that has a final response. |
| CgiOutput.EndOfStdoutExactly | src/modules/cgiHandler.c:527-543 | The end of stdout completes the response, with an error if and only if no header was seen, or it is open and not of its declared length. |
| CgiOutput.ExitExactly | src/modules/cgiHandler.c:436-482 | A bad exit is an error; a good one completes the response once stdout is closed; a kept Location redirects. |
| CgiOutput.ReadableExactly | src/modules/cgiHandler.c:436-482 | A readable channel is read unless the response is final, when it is closed; then the callback ends as an exit does. |
| CgiReads.RunTwins | src/modules/cgiHandler.c:485-574 | After any clean callbacks on both channels this gateway has of the output what the FastCGI gateway has after the same pieces. |
| CgiReads.RunShows | src/modules/cgiHandler.c:485-574 | What the client sees of a run is what some cut of the output into pieces shows, or a failure if no header was complete. |
| CgiReads.PiecesAsReads | src/modules/cgiHandler.c:485-574 | Every cut of the output into pieces can be read that way, and shows what the pieces do. |
| CgiReads.ReadsDoNotMatter | src/modules/cgiHandler.c:485-574 | However stable output is cut into reads and callbacks, with stderr, blocked and interrupted reads anywhere between, at its end the client sees what the whole means; if the body runs over its declared length, it sees a part of it within that length, or nothing, and an error. |
| CgiReads.ReadsAgreeIffCutFree | src/modules/cgiHandler.c:485-574 | For any output at all: all ways of reading it show the client the same if and only if it meets the condition of CutsAgreeIffCutFree. |
| CgiReads.MixedReadsDiffer | src/modules/cgiResponse.c:35-45 | LF LF and CRLF CRLF in one output: two ways of reading it, two documents. |
| CgiReads.OverrunReadsDiffer | src/modules/cgiHandler.c:563-572 | One byte declared and two sent: read between them the declared body is forwarded without an error, and then the reply breaks off; read at once, there is only an error. |
| CgiReader.CgiGateway.constructor | src/modules/cgiHandler.c:94-108 | A new response: no header seen unless the program writes its own, nothing forwarded. |
| CgiReader.CgiGateway.Apply | src/modules/cgiResponse.c:89-130 | Response lines take effect in order; a Location is kept for the callback. |
| CgiReader.CgiGateway.CheckCgiLength | src/modules/cgiHandler.c:583-597 | Raises an error exactly when an open response without a kept Location has not forwarded the declared length. |
| CgiReader.CgiGateway.ForwardBody | src/modules/cgiHandler.c:563-572 | Forwards body within the declared length and stops at the first byte beyond it. |
| CgiReader.CgiGateway.TakeHeader | src/modules/cgiHandler.c:554-562 | An incomplete header is held, a bad one is an error, a complete one applies and its rest is body. |
| CgiReader.CgiGateway.TakeOutput | src/modules/cgiHandler.c:554-572 | stdout bytes are joined to the held header or forwarded as body. |
| CgiReader.CgiGateway.TakeRead | src/modules/cgiHandler.c:516-553 | Each read result: interrupted goes on, blocked stops, failed closes, end of output reconciles, stderr is only logged. |
| CgiReader.CgiGateway.ReadFromCgi | src/modules/cgiHandler.c:485-574 | The read loop gives the value-level result for any read results. |
| CgiReader.CgiGateway.CgiCallback | src/modules/cgiHandler.c:436-482 | A kept Location redirects and completes; a complete command completes. |
| HttpClient.Lexicographic | src/http/http.c:1066-1081 | Every exchange after which the client goes on lowers remaining iterations, then retries, then redirects. |
| HttpClient.RemainingDrops | src/http/http.c:1051-1138 | Every such exchange lowers the number of exchanges that can still happen. |
| HttpClient.ClientTerminates | src/http/http.c:1051-1151 | For any server the client makes at most limit * (max(maxRetries, 1) + 1) * maxFollow exchanges, with limit and maxFollow counted as at least 1. |
| HttpClient.BoundIsReached | src/http/http.c:1105-1138 | The bound is exact: for every single-stream client with something to send there is a server that uses it up. |
| HttpClient.RedirectIsFollowed | src/http/http.c:1107-1121 | The next exchange goes to a redirect target if and only if this one was a usable redirect of a single-stream client. |
| HttpClient.RedirectTooMany | src/http/http.c:1117-1120 | A redirect beyond the limit counts as an iteration, yet its target is where the next exchange goes. |
| HttpClient.ExchangeExactly | src/http/http.c:1051-1138 | One exchange, counter by counter: which answers count as an iteration, a retry or a redirect, and that the client stops exactly at its limit or at a failed exchange that it is not to go on after. |
| HttpClient.Request.constructor | src/http/http.c:928-937 | A new request: no iterations, retries or redirects. |
| HttpClient.Request.CheckRequestState | src/http/http.c:1087-1138 | The content state's counting; an error is raised exactly for a challenge or redirect that is not taken up. |
| HttpClient.Request.MakeExchange | src/http/http.c:995-1151 | One whole exchange is one step of the value-level client. |

## Left out

- Sockets, pipes, processes, signals, clocks, TLS and logging: their results are parameters; nothing else of them is modelled.
- The MPR and HTTP libraries are not part of this model. Queues are sequences of packets with a content count, a put-back restores the front, and writes after an error or a finalized output are discarded.
- Aliasing of vector entries with packet buffers: an entry holds the bytes it points at, so the model does not capture that padding or growth could move a buffer under an entry.
- Buffer growth, garbage collection and the GC roots.
- The stream's own recycling test at the start of fastHandlerResponse, reuse of kept-open sockets, and the order in which idle sockets are tried.
- FastPoolService.Fast.GetFastApp: one pass of the loop; waiting on the condition and the timeout are the caller's, between passes any other section may run.
- FastPoolRuns.SendsAtMostTwice: setting the retried flag after registering is one step with the registration, since both run on the request's dispatcher.
- FastPoolRuns.PoolLimits: a multiplex of at least 1 is assumed, as the FastConnect directive enforces; "at least minApps live apps" is not claimed, because pruning counts killed apps that are still listed; FastPoolService.AgeKillsAreBounded says what it keeps.
- Uniqueness of request ids on one app: each request has its own connection, so nothing depends on it.
- FastConnector.FastRequest.EnableFastConnector: only the writable half of the event mask; the readable half depends on the client's queue.
- CgiNames.HttpIsCgiVarBlocked: the upper case is ASCII's; toupper in another locale is not modelled.
- FastGateway.RunLength: the counts behind an error are not claimed exact; body forwarded before it is.
- OutputCuts.CutsAgreeIff: body counts as seen once it is forwarded. An error discards what the pipeline has not written yet, so how much of a broken off reply reaches the socket also depends on the client's connection and, with FastCGI, on which records one read brings.
- Response header details: the charset suffix, HTTP/2 and hop-by-hop filtering of fields, and the text of errors.
- Range checks in the record parser that 16-bit and 8-bit fields can never fail.
- CgiOutput.CompleteIffNotCutShort: that a command is complete only after its channels are closed is the MPR library's promise.
- CgiReader.CgiGateway.ReadFromCgi: reading on and discarding what comes after the response is final is not modelled; the client sees none of it.
- CgiReads.RunTwins: failed reads and bad exits are left to CgiOutput.CompleteIffNotCutShort.
- CgiStdinRuns.HeldBackIsDrained: a write of no bytes is taken never to find the pipe full.
- The construction of a CGI program's arguments and environment, and the Windows and VxWorks branches.
- Leaf configuration directives are opaque events that succeed or fail; so are tokenizing a line, looking a directive up and evaluating a condition.
- Include cycles, which the code does not guard against: an include tree is finite. Glob patterns give a finite list of files.
- HttpClient.ClientTerminates: one content event and one done event per exchange; an exchange that the client gives up before connecting ends without them and stops the loop.
- convenience.c, makerom.c, espHandler.c, testHandler.c, rom.c and the command line of http.c: plumbing or declarations.
