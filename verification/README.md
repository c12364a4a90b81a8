# A verified model of zeromasque

zeromasque is a pair of programs that carry UDP through HTTP/3 (CONNECT-UDP, RFC 9298). The client
gives every local source address its own request stream, called a flow. The server opens one target
socket per accepted flow and relays datagrams both ways. This project models the code of the two
programs in Dafny and proves what they promise, over every input and every run.

| file | what it models |
|---|---|
| `Common.dfy`, `Text.dfy`, `Base64.dfy` | big-endian numbers, the string operations used, base64 (section 4 of RFC 4648) |
| `Varint.dfy`, `Dgram.dfy` | QUIC variable-length integers (section 16 of RFC 9000), HTTP datagrams (section 2.1 of RFC 9297, section 5 of RFC 9298) |
| `EchConfig.dfy`, `Pem.dfy` | the ECHConfig format (section 4 of draft-ietf-tls-esni-22), PEM bundles and key sets |
| `Batch.dfy` | segmented UDP sends (GSO) and receives (GRO) |
| `Rules.dfy` | endpoints, the rule table, the server-name guard, requests, hot reload |
| `Client.dfy` | the client session: two cross-linked maps, buffering, flow lifetimes |
| `Server.dfy` | the server: routing, flows, idle sweep, reaping; a machine over events and the object that carries them out |
| `Tunnel.dfy` | any number of client sessions and strangers, a network and the server, composed |

The main results, hardest first:

1. `Tunnel.DeliveryIsolation`, `Tunnel.TargetIsolation`, `Tunnel.OneSourcePerSocket`: in every run of
   the composed system no datagram crosses from one local source to another, in either direction.
2. `Tunnel.NoOvertaking`, `Tunnel.OwnTargets`: no client datagram is ever in flight for a flow that was
   never in the server's table, and a session's sockets lead where the rules sent its own endpoint.
3. `Client.FifoAtMostOnce`: for every flow ever opened, what was handed to the tunnel is the first 32
   or fewer early arrivals and then every later one, in order.
4. `Batch.FlushConnection`: batching puts on the wire exactly what one send per packet would, exactly
   when the connection and the socket calls do not fail.
5. `Server.RoutingHolds`, `Server.PinnedForwarding`, `Server.SweepExact`: routes pair one to one with
   connections, reloads never touch a live flow, the sweep closes exactly the idle flows.
6. `EchConfig.ParseOneExact`, `Pem.RoundTrip`, `Varint.RoundTrip`, `Dgram.RoundTrip`: the decoders
   against independent descriptions of their formats.

The run theorems hold of the objects: a `Client.Session` is always in the state of a legal run
(`Client.SessionFifo`), and the server object carries out the machine's events (`Server.PacketIsRun`),
whose logs are those of the composition (`Tunnel.ObjectLogs`).

## How to read it

Three claims one might expect are false of the code, and are stated with their exact condition:

- a varint is read back if and only if it is below 2^62 (`Varint.RoundTrip`);
- an encoded ECHConfig is read back if and only if it has a cipher suite and a UTF-8 name
  (`EchConfig.RoundTrip`, with the witness `EchConfig.EmptySuitesLost`), and so are lists and PEM files
  of them (`EchConfig.ListRoundTrip`, `Pem.RoundTrip`); a decoded one re-encodes to
  the same bytes if and only if it carried no extensions and no trailing bytes (`EchConfig.Normalises`);
- the pairing of routes and connections survives an accept if and only if the random connection id is
  unused (`Server.AcceptRoutes`); that no route dangles holds for any id.

What the model takes from the environment is written as predicates: `Client.Possible` (requests are
made for sources that wait, on stream ids not used before), `Server.Possible` (time does not run
backwards, fresh connection ids and socket handles, requests on client-initiated bidirectional
streams), `Tunnel.May` (the network may lose, reorder and repeat messages but does not invent them;
peers that are not the modelled client may send anything), `Batch.Produced` (the QUIC library yields
non-empty packets of at most 1400 bytes; `Batch.GsoExact` shows why non-empty matters). Outcomes of
system calls are parameters. Maps are visited in any order.

Where the comments of the program and its code differ, the code is followed: the client drops a flow
on every readable status outside 200 to 299, interim ones included, and the server relays a target's
payload before it looks the flow up, so replies to flows already gone still enter the tunnel.

## Model

| member | source | states |
|---|---|---|
| Varint.Decode | src/varint.rs:9-20 | the byte loop computes the big-endian value without the two prefix bits, and fails exactly when the buffer is shorter than its prefix announces |
| Varint.RoundTrip | src/varint.rs:9-40 | for every 64-bit value and any suffix, decoding an encoding consumes exactly the encoded length and yields the low 62 bits; it gives the value back if and only if the value is below 2^62 |
| Varint.DecodedExact | src/varint.rs:9-20 | the decoder's language: a value and a length come out of a buffer if and only if the buffer starts with that value under the prefix of that length, minimal or not |
| Varint.DecodedIsMinimal | src/varint.rs:9-40 | every accepted value is below 2^62, no accepted encoding is shorter than the encoder's, and one of that length is the encoder's own bytes |
| Varint.KnownVectors | src/varint.rs:68-79 | the published vectors decode to their values, and a buffer shorter than its prefix announces is refused |
| Dgram.FrameRoundTrip | src/dgram.rs:19-43 | any flow id, context id and payload framed in that order decode to the low 62 bits of the ids and the whole payload |
| Dgram.DecodeExact | src/dgram.rs:35-43 | a flow id, a context id and a payload come out of a buffer if and only if it is an encoding of each id, minimal or not, and the payload |
| Dgram.RoundTrip | src/dgram.rs:19-43 | decoding what the program frames gives context 0 and the payload whole, and the same flow id if and only if it is below 2^62 |
| Dgram.Normalises | src/dgram.rs:19-43 | whatever the decoder accepts with context 0 is re-framed in no more bytes to the same meaning |
| EchConfig.AppendSuites | src/ech/config.rs:62-65 | the suite loop appends four big-endian bytes per suite, in order |
| EchConfig.Encode | src/ech/config.rs:49-81 | the bytes are the format's layout with no extensions; a panic happens exactly when some length overflows its field |
| EchConfig.Reader.constructor | src/ech/config.rs:159-161 | a new cursor has all bytes unread |
| EchConfig.Reader.IsEmpty | src/ech/config.rs:167-169 | true exactly when no byte is unread |
| EchConfig.Reader.ReadU8 | src/ech/config.rs:171-178 | splits one byte off the unread bytes, or fails on none and moves nothing |
| EchConfig.Reader.ReadU16 | src/ech/config.rs:180-187 | splits a big-endian pair off the unread bytes, or fails and moves nothing |
| EchConfig.Reader.ReadSlice | src/ech/config.rs:204-211 | splits n bytes off the unread bytes, or fails and moves nothing |
| EchConfig.ReadSuites | src/ech/config.rs:108-116 | the loop reads the whole suite block, four bytes a suite, in order |
| EchConfig.ParseSuitesInverse | src/ech/config.rs:108-116 | reading back any written list of suites gives the list |
| EchConfig.SuitesInverse | src/ech/config.rs:62-65 | writing back any readable suite block gives the block |
| EchConfig.DecodeFrom | src/ech/config.rs:92-136 | the cursor reads one config off the front and stops right after it, as the format's parser does |
| EchConfig.Decode | src/ech/config.rs:83-90 | succeeds exactly on one config with nothing after it |
| EchConfig.ParseOneExact | src/ech/config.rs:92-136 | the decoder's language: a config, its dropped bytes and a remainder come out of a byte string if and only if the string lays them out within the format's limits |
| EchConfig.RoundTrip | src/ech/config.rs:49-136 | for every config the encoder accepts and any suffix, decoding gives the config and leaves the suffix if and only if there is a cipher suite and the name is UTF-8 |
| EchConfig.EmptySuitesLost | src/ech/config.rs:104-107 | a config without suites encodes but is refused when read back, whatever follows |
| EchConfig.Normalises | src/ech/config.rs:49-136 | whatever decode accepts re-encodes without a panic, shorter by exactly the dropped bytes, to the same config; the bytes are equal if and only if nothing was dropped |
| EchConfig.EncodeList | src/ech/config.rs:139-149 | the concatenated encodings behind their own length; a panic in one config or an oversized body is a panic of the list |
| EchConfig.ListRoundTrip | src/ech/config.rs:139-149 | decoding the body of any encoded list until it is used up returns the list if and only if every config in it has a cipher suite and a UTF-8 name |
| Base64.RoundTrip | src/ech/key.rs:175-191 | decoding an encoding gives every byte string back |
| Base64.DecodeExact | src/ech/key.rs:175-176 | only the encoder's own text is accepted: decoding gives a byte string if and only if the text is its encoding |
| Base64.Vectors | src/ech/key.rs:190-191 | the published vectors encode to their texts |
| Text.TrimExact | src/ech/key.rs:145-162 | trimming takes off blanks at both ends, and all of them |
| Text.LinesCons | src/ech/key.rs:144 | a newline ends a line, less one carriage return before it, whatever follows; what follows the last newline is a line if not empty |
| Pem.AppendWrapped | src/ech/key.rs:195-198 | the chunk loop writes the text in lines of 64 characters, the last possibly shorter |
| Pem.WrappedLines | src/ech/key.rs:195-198 | the lines written are the text itself, all of 64 characters but a last one of 1 to 64 |
| Pem.WritePemBlock | src/ech/key.rs:190-202 | appends begin marker, wrapped base64 and end marker, each on lines of their own |
| Pem.EncodePairPem | src/ech/key.rs:183-188 | a key block followed by a config block, or a panic exactly when the config cannot be encoded |
| Pem.ReadBase64 | src/ech/key.rs:158-171 | collects the trimmed lines up to the end marker and stops after it; fails exactly when no end marker follows |
| Pem.ParsePemBlocks | src/ech/key.rs:141-180 | the nested line loops read the blocks the line grammar describes, or fail where it does |
| Pem.ParsePemBundle | src/ech/key.rs:92-131 | blocks pair up as key then config, each config decodes alone, in order |
| Pem.BlocksExact | src/ech/key.rs:141-180 | the lines of a file give these blocks if and only if they are, in order, a begin marker, lines that join to the block's base64 and do not hold its end marker, and the end marker, with only blank lines around the blocks |
| Pem.PairsExact | src/ech/key.rs:92-131 | blocks give these pairs if and only if they are a key block and a config block for each pair, in order, each config decoding to the pair's own, and no block more |
| Pem.ParseWrittenBlock | src/ech/key.rs:141-202 | a written block behind any blank text is read back with its body, and parsing goes on right after it |
| Pem.RoundTrip | src/ech/key.rs:92-202 | a file of any encodable pairs, with any blank text before, between and after them, parses to exactly those pairs in order if and only if every config has a cipher suite and a UTF-8 name |
| Pem.Normalises | src/ech/key.rs:92-202 | whatever file parses, writing its pairs again with any blank text gives a file that parses to the same pairs |
| Pem.FindDuplicateId | src/ech/key.rs:72-81 | reports a clash exactly when two pairs share a config id, and then a shared id |
| Pem.KeySetBound | src/ech/key.rs:72-81 | a set that passes has at most 256 pairs and one pair per config id |
| Pem.LoadedExact | src/ech/key.rs:60-69 | one file gives its own pairs if it has any and else fails; files one after the other give theirs in order, and fail if one of them does |
| Pem.LoadKeySet | src/ech/key.rs:60-83 | loads exactly when every file parses to some pairs and all ids are distinct; then all pairs in file order |
| Batch.SplitInvertsMerge | src/io.rs:221-226 | cutting merged equal segments every segment-size bytes gives the packets back |
| Batch.MergeInvertsSplit | src/io.rs:281-295 | the pieces of any cut concatenate to the original and are equal but for a short last one |
| Batch.SplitReceived | src/io.rs:281-295 | the receive loop yields the pieces in order, all from the sender's address |
| Batch.GroInvertsMerge | src/io.rs:281-295 | receiving undoes the kernel's merge of any equal segments, a single packet included |
| Batch.GroExact | src/io.rs:281-295 | what a receive yields is exactly: with a reported size below the length, the one division into pieces of that size with a last one no larger; otherwise the datagram in one piece |
| Batch.GroKeepsBytes | src/io.rs:281-295 | whatever segment size is reported, no byte is lost, added or moved |
| Batch.GsoExact | src/io.rs:297-334 | the kernel hands two or more merged packets back unchanged if and only if none is empty and only the last is short |
| Batch.BatchInBounds | src/io.rs:317-320 | the segment size survives the cast to 16 bits and the payload is at most 44800 bytes |
| Batch.SendEach | src/io.rs:214-219 | one plain call per packet in order; succeeds exactly when every call went out, and otherwise the wire gained the packets before the failing one |
| Batch.SendPackets | src/io.rs:207-237 | on the segmented path, on the fallback after a refusal and on the plain path the wire gains exactly the packets in order; this happens exactly when no call failed other than a segmented one that was refused, and otherwise the wire gained a prefix; on Linux two or more packets are first tried as one segmented call, and only that if it succeeds |
| Batch.SendBatch.constructor | src/io.rs:152-158 | a new batch is empty |
| Batch.SendBatch.PushFirst | src/io.rs:160-165 | an empty batch then holds one packet for one destination, whose size fixes the segment size |
| Batch.SendBatch.TryPush | src/io.rs:167-183 | takes the packet exactly when the batch is empty, or the destination matches, the packet is no larger than a segment, and it is full size or there is room; otherwise hands it back and changes nothing |
| Batch.SendBatch.Take | src/io.rs:191-197 | hands out everything waiting and leaves the batch empty |
| Batch.SendBatchNow | src/io.rs:200-205 | the wire gains what waited and the batch is empty, exactly when no call ended the send; otherwise a prefix |
| Batch.FlushOne | src/io.rs:85-99 | one produced datagram keeps wire and batch together equal to what was produced, every batch sent is of equal segments, and it fails exactly when a call ended a send |
| Batch.FlushConnection | src/io.rs:79-108 | for every sequence of produced datagrams the wire gains exactly that sequence in bytes, order and destination, if and only if the connection does not fail and no call ends a send; after a connection error alone all but fewer than 32 are out, after a send error a prefix; every call is within the batch bounds |
| Batch.SendUdp | src/io.rs:110-114 | one datagram of any size goes out as it is exactly when its one call succeeds; otherwise nothing does |
| Endpoints.ParseEndpoint | src/endpoint.rs:31-48 | refused exactly when there is no scheme separator or nothing before the path; otherwise a non-empty authority without a slash and a path that starts with one |
| Endpoints.EndpointExact | src/endpoint.rs:31-48 | an endpoint is read from a text if and only if the text is anything up to its first scheme separator, the non-empty authority without a slash, and the path, or nothing for the path of one slash |
| Endpoints.PathOnlyIgnoresQuery | src/endpoint.rs:15-17 | appending any query leaves the compared path unchanged |
| Endpoints.MatchesExact | src/endpoint.rs:52-54 | two paths match if and only if they are one text without a question mark, each with or without a query after it |
| Rules.Load | src/rules.rs:86-110 | loads exactly a non-empty list of loadable specifications, each rule saying what its specification says, in order; a zero timeout switches the timeout off |
| Rules.AcceptsExact | src/rules.rs:114-118 | a rule is for a request if and only if the authority is the rule's own and both paths are one text without a question mark, each with or without a query after it |
| Rules.MatchTargetIsFirst | src/rules.rs:114-124 | the target, the flags and the timeout decided on are those of the first rule for the request, said of its strings; there is no decision exactly when no rule is for it |
| Rules.MatchIgnoresQuery | src/rules.rs:114-124 | no query string changes the decision of any table |
| Rules.HostsAgree | src/client.rs:457-468 | the client's and the server's host extraction agree on every string |
| Rules.HostShapes | src/rules.rs:25-35 | the host of every authority: what brackets at its front enclose, else what stands before the last colon, else all of it |
| Rules.AllowedSniHosts | src/rules.rs:132-141 | the loop yields the lower-cased rule hosts in order of first appearance |
| Rules.SniHostsExact | src/rules.rs:132-141 | the allow-list holds each rule's host once and nothing else |
| Rules.SniHostsOrder | src/rules.rs:132-141 | later rules only add hosts behind those of the earlier ones |
| Rules.LowerExact | src/quic.rs:189 | two names are compared equal if and only if they are the same letter for letter, up to the case of ASCII letters |
| Rules.GuardExact | src/quic.rs:183-195 | the guard lets a ClientHello through if and only if it carries a name and the name is the host of some rule, up to the case of ASCII letters |
| Request.Parse | src/server.rs:586-611 | the last header of each name counts; refused with 405, 501 or 400 in that order of checks |
| Request.ReadExact | src/server.rs:586-611 | 405 exactly when the last method header is not CONNECT, 501 exactly when it is but the last protocol header is not connect-udp, 400 exactly when both are but authority or path is missing or not text; otherwise the last authority and path are read |
| Request.ConnectHeadersRead | src/client.rs:103-112 | the server reads from the client's six headers exactly the authority and path put into them, and they carry the scheme and the capsule flag |
| Request.Admission | src/client.rs:457-468 | for every table and rule, a client given that rule's endpoint names a host the guard lets through and gets the target of the first rule for it, no later than its own |
| Reload.Rebuild | src/reload.rs:111-127 | succeeds exactly when keys, rules and certificate are all usable; the server-name list is then the new rules' own |
| Reload.ServerConfig.constructor | src/main.rs:70-79 | the first configuration installs the list derived from its rules |
| Reload.ServerConfig.OnSighup | src/reload.rs:75-105 | TLS configuration and rules are replaced together or not at all, the new keys are those of the new files, and the installed list stays the current rules' own |
| Client.RouteExact | src/client.rs:401-430 | a datagram is delivered to a source with a payload if and only if it is an encoding of a live flow of that source, one of context 0 and the payload, whatever lengths the varints were written in |
| Client.RoutedConcat | src/client.rs:401-430 | datagrams are routed one by one and in order, all of them |
| Client.RoutedOne | src/client.rs:408-422 | one datagram yields one delivery, to the source of the live flow it encodes with context 0, or none |
| Client.StepKeepsConsistent | src/client.rs:280-398 | every event, rejection, reset, finish, blocked and failed requests included, keeps the two maps inverse, buffering exactly until establishment, and at most 32 payloads buffered |
| Client.RunKeepsInv | src/client.rs:161-398 | after every legal run the buffers and sends of all flows, live or ended, match what arrived |
| Client.FifoAtMostOnce | src/client.rs:280-398 | for every flow ever opened in any run, the payloads sent are the first 32 or fewer that arrived before acceptance and then all later ones, in order, none twice; a flow never accepted sent nothing |
| Client.SessionFifo | src/client.rs:280-398 | after any calls on a session object its maps agree and on every flow it has sent exactly that |
| Client.Session.constructor | src/client.rs:189-190 | a session starts at the empty run |
| Client.Session.QueueLocal | src/client.rs:280-294 | the loop forwards on established flows and buffers the rest up to the bound: the object continues its legal run by one arrival per datagram |
| Client.RequestsExact | src/client.rs:311-347 | after the requests, a source that had a flow or was blocked is as it was, a granted one has its stream's flow and its buffer, a refused one is gone, and the flows are the old ones and one for each granted source |
| Client.Session.OpenPendingFlows | src/client.rs:311-347 | in any visiting order each source and the flows are left as its outcome says, nothing is sent, dropping the refused after the loop equals dropping them at once, and with unused streams the object continues its legal run |
| Client.Session.PollOne | src/client.rs:361-394 | an acceptance establishes the source and releases its buffer in order, any other readable status or a close removes the flow and its source, and nothing else changes; the object continues its legal run |
| Client.Session.PollResponses | src/client.rs:350-398 | all polled events continue the object's legal run in order, with all their sends |
| Client.Session.RouteTunnelDatagrams | src/client.rs:401-430 | exactly the routable datagrams are delivered, in order, and no flow changes |
| Server.RouteExact | src/server.rs:163-172 | a packet with a live connection's own id goes to it; any other id goes where it was first used, or nowhere |
| Server.AcceptRoutes | src/server.rs:216-242 | whatever id is drawn, no route dangles; the pairing of routes and connections survives if and only if the id is unused |
| Server.AcceptFrame | src/server.rs:216-242 | accepting adds one connection without flows and one route to it, and leaves all others and their flows as they were |
| Server.ReapRoutes | src/server.rs:288-301 | reaping removes exactly the closed connections and the routes that led to them, leaves the others' flows as they were, and keeps the pairing |
| Server.ToTargetExact | src/server.rs:490-523 | a client datagram reaches a flow with a payload if and only if the flow lives on its own connection and it is an encoding of the flow, one of context 0 and the payload, whatever lengths the varints were written in |
| Server.RequestOutcome | src/server.rs:403-487 | 200 and a flow with the timeout of the first rule for the request exactly when the request is readable, some rule is for it and the socket opens; 404, 502 and the refusals exactly in their cases, with no flow touched; if the response cannot be sent, no flow is left behind |
| Server.StepFrame | src/server.rs:153-523 | what each event leaves alone: other connections, other flows of its own connection, sockets and timeouts, connections and routes |
| Server.StepKeepsInv | src/server.rs:153-523 | every event from any peer keeps routes paired, the server-name list current, and every flow tied to its grant and to its last activity |
| Server.RunKeepsInv | src/server.rs:103-147 | so it holds in every reachable state |
| Server.RoutingHolds | src/server.rs:163-193 | in every reachable state a routed packet finds its connection, routes pair one to one with connections, and the installed server-name list is the current rules' own |
| Server.PacketsFind | src/server.rs:163-193 | in every run, as long as an accepted connection lives, packets with its own id go to it, and so do packets with the id its client first used unless that is another connection's own |
| Server.RulesInForce | src/reload.rs:93-103 | in every run the rules and the server-name list in force are those of the last reload |
| Server.DecidedOnNewRules | src/reload.rs:93-103 | a reload leaves every connection alone, and the next request is decided on the new rules |
| Server.EndedStays | src/server.rs:383-387 | in every run, once a stream has ended its flow is gone until the next request on that stream |
| Server.EndedGetsNothing | src/server.rs:490-523 | until then no datagram for the flow reaches a target or changes anything |
| Server.GrantsStayOverRuns | src/reload.rs:93-103 | a target socket once opened keeps the decision it was opened with over any continuation, reloads included |
| Server.GrantOrigin | src/server.rs:426-467 | every target socket was opened by a request of the run, and its decision was taken on the table installed at that point of the run for the authority and path of that request |
| Server.PinnedForwarding | src/server.rs:426-467 | every live flow's socket was opened by a request of the run on the flow's own stream, its target and timeout are those of the first rule accepting it in the table installed at that point; no query and no later event changes that |
| Server.ActivityExact | src/server.rs:490-523 | an event counts as activity of a flow if and only if it is a client datagram encoding the live flow with context 0, a payload from the live flow's target, or a request on its stream that opens it |
| Server.ActivityIsEvents | src/server.rs:257-278 | the activity a flow's timestamp follows is exactly those events of the run |
| Server.SweepExact | src/server.rs:307-330 | a sweep closes a live flow if and only if it has a timeout and no event of the run crossed it in either direction after now less that timeout; the others stay as they were and none of them is expired |
| Server.ProxyServer.constructor | src/server.rs:87-101 | a server starts without connections and routes |
| Server.ProxyServer.OnPacket | src/server.rs:153-211 | routes or accepts, then processes; state, answers and payloads given to targets are those of the packet's events, the datagrams relayed after the polled events and all of them, nothing at all when the packet is not received or HTTP/3 is not ready; the connection looked up is always there, no route dangles, and pairing is kept for a fresh id |
| Server.ProxyServer.RoutePacket | src/server.rs:163-193 | a live connection's own id names it and changes nothing; an id in the routes names its connection; any other accepts a connection exactly for a supported Initial, and else is refused |
| Server.ProxyServer.AcceptConnection | src/server.rs:216-242 | the connection, without flows, and the route are added together or not at all; pairing survives exactly for an unused id |
| Server.ProxyServer.ProcessClient | src/server.rs:335-400 | answers are those of the polled events, and what is given to targets is what all the datagrams relay on the flows after them; nothing before HTTP/3 is ready |
| Server.PolledConcat | src/server.rs:360-397 | polled events take effect one by one and in order, all but those without meaning here |
| Server.RelayedConcat | src/server.rs:490-523 | datagrams are relayed one by one and in order, all of them |
| Server.RelayedOne | src/server.rs:490-523 | one datagram gives its payload to the socket of the live flow it encodes with context 0, or nothing |
| Server.DrainGives | src/server.rs:490-523 | draining gives exactly the relayed payloads, answers nothing and leaves every flow its socket |
| Server.ProxyServer.PollEvents | src/server.rs:360-397 | all events of one connection take effect in order, with their responses; an ended stream takes its flow and nothing else |
| Server.ProxyServer.PollOne | src/server.rs:360-397 | a request leaves the flows and the answer of its outcome, an ended stream removes its flow, and no other connection or flow changes |
| Server.ProxyServer.HandleConnectRequest | src/server.rs:403-487 | flows and response are those of the request's event; a flow inserted before a failed response is removed again |
| Server.ProxyServer.DrainClientDatagrams | src/server.rs:490-523 | each datagram is one event, and exactly the relayed payloads are given, in order |
| Server.ProxyServer.OnTargetPayload | src/server.rs:257-278 | a target's payload enters its own connection's tunnel whether or not its flow lives, and stamps the flow if it does |
| Server.ProxyServer.ReapClosed | src/server.rs:288-301 | in any visiting order exactly the closed connections and their routes go, and the others stay as they were |
| Server.ProxyServer.SweepConnection | src/server.rs:310-328 | the two loops remove exactly the expired flows and shut down their own request streams |
| Server.ProxyServer.SweepIdleFlows | src/server.rs:307-330 | in any visiting order every connection keeps exactly the flows without a timeout or active within it, unchanged, and exactly the request streams of the others are shut down |
| Server.ShutdownsExact | src/server.rs:317-328 | a stream is shut down if and only if it is four times the id of a listed expired flow of that connection |
| Server.PacketIsRun | src/server.rs:153-211 | after any legal run, with a fresh connection id, fresh sockets, client streams and time in order, the events of any packet make a legal run in whose state the object is; so what holds in every run holds of the object |
| Server.RunIsSteps | src/server.rs:103-147 | over any events but reloads the machine's run and the object's steps stay in the same state |
| Tunnel.UseNeedsAcceptance | src/client.rs:361-372 | only a 2xx answer on its own stream brings a flow into use |
| Tunnel.AcceptMeansFlow | src/server.rs:460-486 | a 2xx answer goes out only with the flow in the server's table |
| Tunnel.AnswersCreated | src/server.rs:460-486 | for every 2xx answer of a run there is a point of the run at which its flow was in the server's table |
| Tunnel.UseCreated | src/client.rs:361-372 | a session forwards on a flow only when at some point of the run the flow was in the server's table for the session's connection |
| Tunnel.ObjectLogs | src/server.rs:153-278 | over the events of its calls the server object's answers and given payloads are exactly what the composition sees |
| Tunnel.SentArrived | src/client.rs:280-294 | whatever a session hands to the tunnel on a flow arrived from the source the flow was opened for |
| Tunnel.StepKeepsInv | src/server.rs:103-147 | every step of the composed system keeps the invariant that spans both ends and everything in flight |
| Tunnel.RunKeepsInv | src/server.rs:103-147 | so it holds in every reachable state of the composition |
| Tunnel.DeliveryIsolation | src/client.rs:401-430 | in every run, what any local source is given was received on a target socket of its session's own connection, opened by a request made for that very source, late replies included |
| Tunnel.TargetIsolation | src/server.rs:490-523 | in every run, what a target socket is given came over its own connection and, from a session, arrived from the source whose request opened it, whatever strangers send |
| Tunnel.OneSourcePerSocket | src/server.rs:526-576 | a target socket serves one local source in both directions |
| Tunnel.OwnTargets | src/server.rs:403-487 | in every run, a target socket on a session's connection was opened by that session's request and leads to the target of the first rule for the session's own authority and path in the table installed at that point of the run |
| Tunnel.NoOvertaking | src/client.rs:119-125 | in every run, for every datagram a session ever handed to the tunnel there is a point of the run, not after now, at which the datagram's flow was in the server's table for that session's connection; and the datagram decodes to that flow |
| Tunnel.ThereAndBack | src/client.rs:311-430 | for every accepting table, source, datagram and reply, some legal run carries the datagram to the flow's target socket and the reply back to the source |

## Left out

- The QUIC, HTTP/3 and TLS libraries: their events are parameters with the assumptions named above.
- Raw system calls, control messages, socket addresses and options, waiting for a writable socket, and truncation of datagrams larger than the receive buffer.
- Opening and marking target sockets, transparent binding and the client address it uses: an outcome, success or failure.
- The relay loop of a target socket (src/server.rs:526-576): a payload counts as given once queued for it, its replies carry the flow it was started for, and a full queue is a message never delivered.
- Network duplication: the composed network may repeat messages, so at most once is claimed at the send call and not at the far end.
- The order in which the two main loops poll their sources: runs allow every order.
- How soon an idle flow is closed: the sweep timer restarts on every loop turn, so only what a sweep does is stated.
- JSON parsing, name resolution, the status number in a response header, and the decoding of file and header bytes to text; the UTF-8 test on ECH names is modelled.
- Error texts: every error of a parser or loader is one failure value.
- Version negotiation replies, connection flushing order and logging.
- Certificate loading (a flag), key generation, public-name validation, the command line and hexadecimal output.
- Reconnect backoff, listing a key directory, counting privileged rules, and the unused 24-bit read: they would only add easy members.
- `encode_list` on a loaded key set (src/ech/key.rs:86-88): it is the list encoder applied to the configs.
