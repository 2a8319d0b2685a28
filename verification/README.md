# A model of the enclave proxy, the root key and two small cores

This Dafny project models the parts of the repository whose correctness is hardest to see by reading one
function, and proves what they promise.

* **The SOCKS5 proxy of a Nitro Enclave.** `Freelist.dfy` and `Buffer.dfy` model the block queue with its two
  outstanding views (a reservation being written, a peek being read) on real linked blocks; `Cells.dfy` is the
  same chain as a value. `Socks5.dfy` is the handshake object on such a buffer, `Handshake.dfy` the same
  handshake as a function, `Rfc1928.dfy` the grammar it accepts (sections 3 and 4 of RFC 1928), `Outcomes.dfy` how
  it can end. `Pipe.dfy` is one direction of a session, `Session.dfy` both of them after a handshake, and
  `Bridge.dfy` the object whose handlers - one at a time, as the strand guarantees - move the real buffers and
  flags. `Client.dfy` is the client's half of the handshake, `Protocol.dfy` the address printer both share, and `SessionPool.dfy` the pool
  of connections that waits for inbound traffic.
* **The measurement-bound root key.** `RootKey.dfy` models boots that read and write four S3 objects, a
  transparency log and its stored entry, and that may throw or crash before or after any step.
* **Smaller cores.** `ClientId.dfy` (escaping of client identifiers), `MinimalPaths.dfy` (minimal mount points)
  and `ImageTags.dfy` (memoised content tags over image dependencies).

Objects that the source changes in place are classes whose methods are proved against functions or value
models; the laws over whole runs are lemmas about those. The environment - byte counts, errors, the order of
completions, faults of S3, KMS and the log, the answers of the application's callbacks - is arbitrary
everywhere. Bytes are integers below 256, Java's chars integers below 65536, ports integers below 65536.

Findings where the code does less than one would expect:

* `SessionPools.BuffersInRange`: the pool indexes past its buffers exactly for a backlog of 0 or 1
  (client_session_pool.cc:158-175). `Start` still reports success then.
* `Handshake.SuccessMeansReplied`, `Handshake.SuccessWithoutReply`, `Rfc1928.RefusedConnection`: after a connection
  is made the handshake succeeds even if its reply could not be sent (socks5_state.cc:326-331), although the
  comment there says that the result is checked.
* `SessionPools.ErrorReplyRejected`: if the server cannot find out a peer's address it sends a ten-byte error reply,
  but the pool waits for 22 bytes (client_session_pool.cc:239): it keeps the connection until twelve more have come
  or the stream has ended, and then drops it. A peer with an IPv4 address would be mistaken too
  (`SessionPools.SecondReplyAgreement`), but cannot arise: every acceptor is opened for IPv6
  (acceptor_pool.h:48-70).
* `Outcomes.NotYetRejected`: bytes that no acceptable greeting begins with are rejected only once the two bytes of
  its header, all its methods, or the four of the request's header have come (socks5_state.cc:70-95); that is the
  condition `Outcomes.FailsExactly` states.

`dafny verify dfyconfig.toml` checks everything.

## Model

| member | source | states |
|---|---|---|
| `Blocks.Freelist.New` | container-tools/cc/aws/proxy/src/freelist.h:35-48 | Gives back the most recently freed block, wiped clean, or a new one if and only if none is free; the freelist loses exactly that block. |
| `Blocks.Freelist.Delete` | container-tools/cc/aws/proxy/src/freelist.h:51-58 | The block becomes the first free one; the others and their order are untouched, the count goes up by one. |
| `Blocks.Freelist.DeleteChain` | container-tools/cc/aws/proxy/src/freelist.h:61-76 | A whole chain goes in front of the free blocks, in its own order; the count grows by the chain's length. |
| `Blocks.Freelist.Clear` | container-tools/cc/aws/proxy/src/freelist.h:79-84 | Leaves nothing free. |
| `Blocks.Freelist.FillN` | container-tools/cc/aws/proxy/src/freelist.h:87-92 | Puts exactly n new, distinct blocks in front. |
| `Buffers.BasicBuffer.SpaceSize` | container-tools/cc/aws/proxy/src/buffer.h:151-158 | The arithmetic of space_size() equals the number of free bytes from the end block on, for every chain that operations can produce. |
| `Buffers.BasicBuffer.Reserve` | container-tools/cc/aws/proxy/src/buffer.h:166-181 | Hands out segments of exactly the size asked for; queue, peeked view and existing free space are untouched, blocks come from the freelist first. |
| `Buffers.BasicBuffer.ReserveAtLeast` | container-tools/cc/aws/proxy/src/buffer.h:188-203 | Hands out free space up to the end of the block that completes the size asked for, and no further: the size granted is a function of where the queue begins in its block and how long it is. |
| `Cells.GrantIsLeast` | container-tools/cc/aws/proxy/src/buffer.h:194-201 | That function is the least number of bytes, not below the size asked for, that ends at a block's end. |
| `Buffers.BasicBuffer.ReservedSegments` | container-tools/cc/aws/proxy/src/buffer.h:213-226 | At any moment, whatever has been drained since, the outstanding reservation still is the front of the free space: the segments, read in order, are its first bytes. |
| `Buffers.BasicBuffer.Fill` | container-tools/cc/aws/proxy/src/buffer.h:273-280 | Bytes arriving in the reserved segments become the front of the free space and change neither the queue nor what was peeked. |
| `Buffers.BasicBuffer.Commit` | container-tools/cc/aws/proxy/src/buffer.h:214-226 | Appends exactly the first n free bytes to the queue; with ReservedSegments, the first n bytes written into the reservation. |
| `Buffers.BasicBuffer.Peek` | container-tools/cc/aws/proxy/src/buffer.h:230-239 | The segments handed out, read in order, are the whole queue. |
| `Buffers.BasicBuffer.PeekedSegments` | container-tools/cc/aws/proxy/src/buffer.h:58-65 | At any moment, whatever has been committed since, the outstanding peek still reads the front of the queue. |
| `Buffers.BasicBuffer.Drain` | container-tools/cc/aws/proxy/src/buffer.h:243-269 | Removes exactly the first n bytes, keeps an outstanding reservation and its free space byte for byte, conserves the blocks of chain and freelist together, and moves the beginning of the queue within its block by n, or back to 0 if the queue is empty and nothing is reserved. |
| `Buffers.BasicBuffer.CopyIn` | container-tools/cc/aws/proxy/src/buffer.h:273-281 | Appends the chunk, taking blocks from the freelist first; refused only for an empty chunk into a buffer without a block, on which Commit insists. |
| `Buffers.BasicBuffer.CopyOut` | container-tools/cc/aws/proxy/src/buffer.h:285-301 | Moves the first min(size, data_size) bytes of the queue into the target, or drops them. |
| `Buffers.BasicBuffer.AppendNewBlock` | container-tools/cc/aws/proxy/src/buffer.h:305-320 | The chain grows by one blank block at the tail, taken from the freelist if it has one; only a first block becomes the end block. |
| `Buffers.BasicBuffer.NoSharing` | container-tools/cc/aws/proxy/src/buffer.h:366-384 | No block is twice in the chain, twice in the freelist or in both; block_cnt_ and the freelist's size are their lengths. |
| `Buffers.BasicBuffer.Destroy` | container-tools/cc/aws/proxy/src/buffer.h:148 | Every block of the chain ends up in the freelist, in order. |
| `Cells.CommitAt` | container-tools/cc/aws/proxy/src/buffer.h:98-104 | One block's commit moves the next bytes of room to the end of the data and keeps blocks full before the end block and untouched after it. |
| `Protocol.FillAddrPort` | container-tools/cc/aws/proxy/src/protocol.cc:39-62 | Prints address type, address and port, and touches nothing else of the message; other families print nothing. |
| `Protocol.AddrRoundTrip` | container-tools/cc/aws/proxy/src/protocol.cc:39-62 | The printed address can be read back, whatever follows it. |
| `Protocol.PortRoundTrip` | container-tools/cc/aws/proxy/src/socks5_state.cc:247-262 | ntohs and htons undo each other on every port. |
| `Rfc1928.OnTheWire` | container-tools/cc/aws/proxy/src/protocol.cc:39-62 | Byte by byte: a CONNECT request is 5, 1, 0, a BIND request 5, 2, 0, then type 1 and four address bytes or type 4 and sixteen, then two port bytes. |
| `Socks5.Socks5State.Proceed` | container-tools/cc/aws/proxy/src/socks5_state.cc:70-311 | One transition of the object - on its real buffer - is one transition of the handshake model: same next state, same bytes consumed, same callbacks with the same arguments, same result. When that is a failure is Outcomes.FailsExactly. |
| `Socks5.Socks5State.CreateResp` | container-tools/cc/aws/proxy/src/socks5_state.cc:35-66 | The reply built in the array is the model's reply, for IPv4, IPv6, other families and errors. |
| `Socks5.Socks5State.ConnectionSucceed` | container-tools/cc/aws/proxy/src/socks5_state.cc:313-332 | Refines the model's transition, whatever bytes are waiting. |
| `Handshake.SuccessMeansReplied` | container-tools/cc/aws/proxy/src/socks5_state.cc:284-332 | Whatever comes of sending the final reply, success implies that it was taken if and only if no connection was pending; a pending connection always succeeds, with the same outcome, while from kResponse success does depend on the answer. |
| `Handshake.SuccessWithoutReply` | container-tools/cc/aws/proxy/src/socks5_state.cc:326-331 | For every run of the handshake that ends with a pending connection, an application that differs only in refusing what it is asked to send from then on has the very same run, and a success with its reply refused. |
| `Handshake.ProceedMore` | container-tools/cc/aws/proxy/src/socks5_state.cc:70-311 | A transition that had enough bytes does the same with more, and leaves the extra bytes alone. |
| `Handshake.RunIsExhaust` | container-tools/cc/aws/proxy/src/proxy_bridge.cc:67-85 | Whatever the reads were, the driver is where one run over all the bytes at once would be. |
| `Handshake.ChunkingIndependence` | container-tools/cc/aws/proxy/src/proxy_bridge.cc:67-90 | Any two ways of cutting the same client bytes into reads lead to the same state, calls, arguments and unread bytes, and - unless failed - the same required size. |
| `Rfc1928.ConnectsExactly` | container-tools/cc/aws/proxy/src/socks5_state.cc:185-240 | The server connects to an address if and only if the client's bytes begin with a greeting (section 3 of RFC 1928) offering "no authentication" and a CONNECT request (section 4) for it, and the greeting was answered; exactly those bytes are consumed. |
| `Rfc1928.BindsExactly` | container-tools/cc/aws/proxy/src/socks5_state.cc:241-271 | The same for BIND and its port; the address is ignored. |
| `Rfc1928.RefusedConnection` | container-tools/cc/aws/proxy/src/socks5_state.cc:313-332 | Such a run exists for every address: greeting answered, connection started, final reply refused, success. |
| `Rfc1928.ConnectAccepted` | container-tools/cc/aws/proxy/src/socks5_state.cc:78-240 | Every acceptable greeting and CONNECT request is passed on with that very address, leaving the payload; then the handshake waits, fails, or replies with the socket's address (or else an error) and succeeds if and only if that was taken, as the application answers. |
| `Rfc1928.BindAccepted` | container-tools/cc/aws/proxy/src/socks5_state.cc:241-271 | Every acceptable BIND request asks for its port; refused, the handshake fails, and otherwise the port obtained is reported with a zero IPv4 address and the handshake waits for a peer unless that cannot be sent. |
| `Rfc1928.ExhaustConsumes` | container-tools/cc/aws/proxy/src/socks5_state.cc:78-311 | In every state but failure what has been consumed is exactly the part of the grammar that the state stands for: in particular, to wait for a connection or to succeed is to have consumed a whole CONNECT request, to wait for a peer a whole BIND request. |
| `Rfc1928.PendingSucceeds` | container-tools/cc/aws/proxy/src/socks5_state.cc:313-332 | A pending connection is replied to with its own address after CONNECT, its peer's after BIND, or an error if that is unknown, and succeeds; from any other state the call fails. |
| `Outcomes.FailsExactly` | container-tools/cc/aws/proxy/src/socks5_state.cc:70-311 | Over every run: the handshake fails if and only if a whole greeting header, greeting or request header has come with which no acceptable greeting and request begins, or the application refused one of the calls made. |
| `Outcomes.RejectedBytes` | container-tools/cc/aws/proxy/src/socks5_state.cc:78-182 | Those bytes, one by one: version not 5 or no methods, no method 0, or a request header other than 5, 1 or 2, 0, 1 or 4. |
| `Outcomes.RestsAsAsked` | container-tools/cc/aws/proxy/src/socks5_state.cc:70-311 | Over every run: to wait for a connection is to have asked for one that is in progress, to wait for a peer is to have obtained a port and reported it, to succeed is to have been connected at once and to have said so; no run rests in kResponse. |
| `Outcomes.NotYetRejected` | container-tools/cc/aws/proxy/src/socks5_state.cc:70-95 | A first byte that begins no greeting is waited on, not rejected: the server looks at whole units only. |
| `Pipes.StepKeeps` | container-tools/cc/aws/proxy/src/proxy_bridge.cc:92-214 | Every handler keeps conservation (what came in is what went out followed by the buffer), the buffer bound, single shutdowns, and leaves nothing due unscheduled. What it does besides is Pipes.StepMeans. |
| `Pipes.StepMeans` | container-tools/cc/aws/proxy/src/proxy_bridge.cc:92-214 | A read brings exactly its bytes, a write takes exactly the n bytes it reports off the front of what it was offered; a source ends and a sink fails only by an error; the calls made on the two sockets are exactly those due. |
| `Pipes.RunSends` | container-tools/cc/aws/proxy/src/proxy_bridge.cc:135-214 | Over any run: what was sent is, of each write that completed, the first n bytes of what it was offered, n being what its completion reports; at most the last write is pending. |
| `Pipes.RunEnds` | container-tools/cc/aws/proxy/src/proxy_bridge.cc:135-214 | Over any run: the source has ended if and only if a read reported an error, the sink has failed if and only if a write did. |
| `Pipes.ClosedForGood` | container-tools/cc/aws/proxy/src/proxy_bridge.cc:146-151 | Over any run, after its shutdown a sink is never written to or shut down again. |
| `Pipes.ClosesWhenDone` | container-tools/cc/aws/proxy/src/proxy_bridge.cc:169-172 | The send side is shut down exactly when the source has ended and everything it sent was taken, with no operation pending. |
| `Pipes.FiniteRun` | container-tools/cc/aws/proxy/src/proxy_bridge.cc:135-214 | No direction can go on for ever on a finite stream: at most two completions for each byte, and two more. |
| `Sessions.FiniteSession` | container-tools/cc/aws/proxy/src/proxy_bridge.cc:135-214 | Nor can a session: at most two completions for each byte that entered a buffer, and four more. |
| `Sessions.SessionComplete` | container-tools/cc/aws/proxy/src/proxy_bridge.cc:92-214 | In every reachable state with nothing pending, each direction is finished: its sink failed, or its source ended and the sink took every byte of it in order and was shut down. No wake-up is lost. At all times each output is a prefix of its input, made of exactly the bytes that the completed writes report, and the buffers are bounded. |
| `Sessions.EndsByErrors` | container-tools/cc/aws/proxy/src/proxy_bridge.cc:135-214 | In every run a stream has ended, or a sink failed, exactly if a read of the one, or a write to the other, reported an error. |
| `Sessions.EndToEnd` | container-tools/cc/aws/proxy/src/proxy_bridge.cc:57-225 | From first byte to last: the client's bytes are one CONNECT request for the address connected to, followed by a payload of which the destination has received a prefix - all of it once the session is quiet and no write failed. What it received is, of each write, the bytes the completion reports. |
| `Sessions.InboundEndToEnd` | container-tools/cc/aws/proxy/src/proxy_bridge.cc:57-214 | The same of a BIND session: the client's bytes are one BIND request for the port and a payload for the peer. |
| `Sessions.PayloadArrives` | container-tools/cc/aws/proxy/src/proxy_bridge.cc:92-214 | The destination receives a prefix of what the handshake left followed by what was read from the client since - all of it once the session is quiet and no write failed. It is made of the bytes the completed writes report, |sent| being their sum. |
| `Sessions.AnswerArrives` | container-tools/cc/aws/proxy/src/proxy_bridge.cc:92-214 | The client receives a prefix of what was read from the destination - all of it once the session is quiet and no write to the client failed. It is made of the bytes the completed writes report. |
| `Sessions.ProxyBound` | container-tools/cc/aws/proxy/src/proxy_bridge.cc:92-123 | With 4096-byte blocks and a 24-byte header neither buffer ever holds more than 45030 bytes, in any run. |
| `Sessions.ProxyBoundIsReached` | container-tools/cc/aws/proxy/src/proxy_bridge.cc:92-123 | That bound is exact, with the grants the buffer really makes: wherever in its block the buffer begins, a run with one partial write and full reads ends with 45030 bytes in it. |
| `Sessions.RunFlowSteps` | container-tools/cc/aws/proxy/src/proxy_bridge.cc:135-214 | A run of the two directions is a run of handlers, one after the other. |
| `Bridge.ProxyBridge.ForwardTraffic` | container-tools/cc/aws/proxy/src/proxy_bridge.cc:92-133 | On the real flags and buffers: schedules exactly what the model schedules in both directions. |
| `Bridge.ProxyBridge.ClientReadHandler` | container-tools/cc/aws/proxy/src/proxy_bridge.cc:135-153 | Takes the session by a legal step of the model to a state that keeps the invariant; no assertion of either buffer can fail. |
| `Bridge.ProxyBridge.ClientWriteHandler` | container-tools/cc/aws/proxy/src/proxy_bridge.cc:155-174 | Likewise for a write to the client. |
| `Bridge.ProxyBridge.DestReadHandler` | container-tools/cc/aws/proxy/src/proxy_bridge.cc:176-194 | Likewise for a read of the destination. |
| `Bridge.ProxyBridge.DestWriteHandler` | container-tools/cc/aws/proxy/src/proxy_bridge.cc:196-214 | Likewise for a write to the destination. |
| `Bridge.ProxyBridge.PerformSocks5Handshake` | container-tools/cc/aws/proxy/src/proxy_bridge.cc:57-65 | Starts the driver with one read outstanding. |
| `Bridge.ProxyBridge.Socks5HandshakeHandler` | container-tools/cc/aws/proxy/src/proxy_bridge.cc:67-90 | One read of the handshake driver; after an error it neither runs nor reads again. |
| `Bridge.ProxyBridge.ConnectHandler` | container-tools/cc/aws/proxy/src/proxy_bridge.cc:216-225 | Forwarding starts with exactly the bytes the handshake left over; a failed connection changes nothing. |
| `Bridge.ProxyBridge.AcceptInboundConnection` | container-tools/cc/aws/proxy/src/proxy_bridge.cc:304-315 | The same on an accepted socket, which becomes the destination. |
| `Bridge.ProxyBridge.Serve` | container-tools/cc/aws/proxy/src/proxy_bridge.cc:57-225 | Whatever completes, in whatever order and with whatever errors: every use of the buffers is legal throughout, and the object ends where the driver's run over the reads handled and then the session model's run over the completions handled end - same state, calls, bytes and flags. A quiet session is finished. |
| `Bridge.ProxyBridge.Dispatch` | container-tools/cc/aws/proxy/src/proxy_bridge.cc:57-225 | A completion is handled exactly if it fits a pending operation, and takes the object along the driver's and the model's run. |
| `Bridge.ProxyBridge.ForwardsAsAsked` | container-tools/cc/aws/proxy/src/proxy_bridge.cc:216-225 | The object never forwards unasked: the client's bytes were not rejected, and a connection asked for was in progress or a port had been obtained. |
| `Bridge.ProxyBridge.Delivers` | container-tools/cc/aws/proxy/src/proxy_bridge.cc:57-225 | So of the real object: the client's bytes that were read are a CONNECT request for the address connected to and a payload of which the destination took a prefix, and likewise back; all of it once quiet without a failed write. Either way what was taken is, of each WriteSome call on the socket, the bytes its completion reports. |
| `Bridge.ProxyBridge.DeliversInbound` | container-tools/cc/aws/proxy/src/proxy_bridge.cc:57-315 | The same of the real object once a peer has connected to a port that the client asked for. |
| `Client.RecvAll` | container-tools/cc/aws/proxy/src/preload.cc:294-314 | Through any number of interruptions: receives exactly the bytes asked for, fewer only at the end of the stream or after an error, and writes them in order. |
| `Client.ClientConnect` | container-tools/cc/aws/proxy/src/preload.cc:341-456 | Sends 5, 1, 0, 5, 1, 0, address type, address and port in one piece. If no receive fails it returns 0 if and only if the server's bytes begin with 5, 0, 5, 0, 0 and a whole address and port, which it has then taken; the negated error code, or -1 if that is 0, after seven other bytes; -1, having taken everything, if fewer came. -1 if a receive fails. |
| `Client.VerdictReads` | container-tools/cc/aws/proxy/src/preload.cc:397-455 | The same of the verdict as a function of the server's bytes. |
| `Client.ReplyAccepted` | container-tools/cc/aws/proxy/src/preload.cc:394-455 | The client accepts the server's reply, to its last byte, if and only if the server knew its own endpoint and that is IPv4 or IPv6; the endpoint can then be decoded from it. |
| `Client.ConnectRoundTrip` | container-tools/cc/aws/proxy/src/preload.cc:341-456 | However the client's bytes are cut into reads, the server connects to the client's very address and leaves nothing over; and the client accepts the reply and takes every byte of it. |
| `SessionPools.BindAgreement` | container-tools/cc/aws/proxy/src/client_session_pool.cc:75-119 | However it is cut, the pool's 13-byte request makes the server ask for that port and answer with exactly twelve bytes, which the pool accepts: 5, 0, then 5, 0, 0, an IPv4 address of zeros and the port obtained. |
| `SessionPools.SecondReplyAgreement` | container-tools/cc/aws/proxy/src/client_session_pool.cc:254-274 | The 22 bytes the pool reads are the server's whole second reply, whatever payload follows, if and only if the server knew the peer's address and it is IPv6; then the pool extracts that address and port. |
| `SessionPools.ErrorReplyRejected` | container-tools/cc/aws/proxy/src/client_session_pool.cc:254-264 | If the accepted socket cannot tell its peer, the server's reply is the ten-byte error reply; the pool takes more than that off the stream, and rejects whatever follows it. |
| `SessionPools.StepKeeps` | container-tools/cc/aws/proxy/src/client_session_pool.cc:180-327 | Every handler keeps sockets unshared, never handed over twice, the pool within its limit and growing by at most one slot, and - while not full - a last slot whose first reply will make it grow. |
| `SessionPools.RunKeeps` | container-tools/cc/aws/proxy/src/client_session_pool.cc:146-327 | The same over every run from Start on. |
| `SessionPools.GrowsFromTheLast` | container-tools/cc/aws/proxy/src/client_session_pool.cc:239-251 | In every run the pool grows exactly when its last slot gets a good first reply and there is room. |
| `SessionPools.BuffersInRange` | container-tools/cc/aws/proxy/src/client_session_pool.cc:153-175 | No run indexes past the buffers if and only if the backlog is at least two: with a backlog of 0 or 1 the code does. |
| `SessionPools.HandoffFollowsCycle` | container-tools/cc/aws/proxy/src/client_session_pool.cc:282-321 | Every hand-over follows, on its slot and with nothing in between, a connection, a first and a second reply, and carries that second reply's address and port; the only exception is the socket Start connected. |
| `SessionPools.StopsExactly` | container-tools/cc/aws/proxy/src/client_session_pool.cc:180-339 | Over every run: the pool has stopped if and only if the application's socket failed, or the application did not take a message it could be sent; and as long as it runs, the errors counted are the attempts that failed or were rejected. |
| `SessionPools.EachCompletion` | container-tools/cc/aws/proxy/src/client_session_pool.cc:196-321 | At every point of every run: a failed or rejected completion gives its slot a new socket that connects and counts one error, a hand-over starts its slot over as well, any other moves its slot on with the same socket; every other slot stays as it is. |
| `SessionPools.ClientSessionPool.Start` | container-tools/cc/aws/proxy/src/client_session_pool.cc:47-178 | Succeeds if and only if every blocking call does and the backlog is not negative; tells the application the port obtained; the pool is then min(backlog, 128) large and in order if and only if the backlog is at least two. |
| `SessionPools.ClientSessionPool.InitiateSocket` | container-tools/cc/aws/proxy/src/client_session_pool.cc:180-194 | Replaces the slot's socket, closes the old one and starts exactly one operation. |
| `SessionPools.ClientSessionPool.HandleConnect` | container-tools/cc/aws/proxy/src/client_session_pool.cc:196-220 | Refines the model's step, with exactly one operation pending for each slot, no descriptor leaked, and the pool's port asked for on each new connection. What the step is, is SessionPools.EachCompletion. |
| `SessionPools.ClientSessionPool.Handle1stResp` | container-tools/cc/aws/proxy/src/client_session_pool.cc:222-252 | Likewise, and grows the pool when due. |
| `SessionPools.ClientSessionPool.Handle2ndResp` | container-tools/cc/aws/proxy/src/client_session_pool.cc:254-280 | Likewise; the slot's buffer then holds the message announcing the peer. |
| `SessionPools.ClientSessionPool.HandleSendFd` | container-tools/cc/aws/proxy/src/client_session_pool.cc:282-321 | Likewise; descriptor and message go out together, or the pool stops. |
| `SessionPools.ClientSessionPool.Stop` | container-tools/cc/aws/proxy/src/client_session_pool.cc:329-339 | Closes every socket of the pool and the application's own. |
| `SessionPools.ClientSessionPool.Serve` | container-tools/cc/aws/proxy/src/client_session_pool.cc:180-339 | The object goes through every run exactly as the model does, one pending operation for each slot until it stops. |
| `RootKey.BootKeeps` | mbs/java/com/google/mbs/KmsMeasurementBoundCertificateProvider.java:146-313 | Every boot, whatever throws or crashes before or after any of its steps, keeps the buckets consistent; what it returns is a certificate, key and token of one generation, and the stored one. |
| `RootKey.Recovers` | mbs/java/com/google/mbs/KmsMeasurementBoundCertificateProvider.java:146-212 | From every consistent state a boot without faults succeeds, and stores the log's entry if the log has one for the certificate. |
| `RootKey.ReturnsExactly` | mbs/java/com/google/mbs/KmsMeasurementBoundCertificateProvider.java:146-396 | When a boot returns: with an attestation, if and only if the five reads and the check for the log entry meet no fault and the machine does not stop while a missing entry is looked up or stored - errors of those two steps fail no boot; without one, if and only if the reads up to the first missing object and all eight steps of generating meet none. Otherwise it ends as the first fault has it. |
| `RootKey.HistoryConsistent` | mbs/java/com/google/mbs/KmsMeasurementBoundCertificateProvider.java:146-281 | Over every sequence of boots a stored attestation implies that certificate, data key and sealed private key are of its generation, no other certificate is ever recorded in the log, and a stored log entry is the log's for that certificate. |
| `RootKey.RootKeyIsStable` | mbs/java/com/google/mbs/KmsMeasurementBoundCertificateProvider.java:146-281 | From empty buckets, all boots that ever return agree, and after any history one more boot without faults returns - the same certificate and key. |
| `RootKey.MixedGenerations` | mbs/java/com/google/mbs/KmsMeasurementBoundCertificateProvider.java:182-194 | Two interrupted boots do leave a private key sealed under a data key that is gone, and no attestation. Any boot without faults then returns; had the key been opened before the attestation was fetched, no boot would ever return again. |
| `RootKey.MixedNeedsAttestationFirst` | mbs/java/com/google/mbs/KmsMeasurementBoundCertificateProvider.java:182-204 | The same of every such state, however reached, and of each boot: with the two steps swapped it throws and changes nothing. |
| `RootKey.KeyProvider.LoadOrGenerateCertificate` | mbs/java/com/google/mbs/KmsMeasurementBoundCertificateProvider.java:146-212 | The provider's reads, in the order of the code, and its decision to regenerate, are the model's boot. |
| `RootKey.KeyProvider.GenerateAndStoreCertificate` | mbs/java/com/google/mbs/KmsMeasurementBoundCertificateProvider.java:214-313 | The four puts, the log record and the last put, in order, each of which may fail before or after taking effect. |
| `RootKey.KeyProvider.ReconcileTlogArtifacts` | mbs/java/com/google/mbs/KmsMeasurementBoundCertificateProvider.java:362-396 | Fetches a missing log entry; errors after the existence check are swallowed, as RootKey.ReturnsExactly states of whole boots. |
| `RootKey.KeyProvider.Live` | mbs/java/com/google/mbs/KmsMeasurementBoundCertificateProvider.java:146-313 | Any sequence of boots of the object is the model's history, and leaves the buckets consistent. |
| `ClientId.EscapeUnescape` | java/com/google/tca/domain/CallerIdentity.java:38-58 | A decoder that accepts a string accepts only the escape of what it returns. |
| `ClientId.UnescapeEscape` | java/com/google/tca/domain/CallerIdentity.java:38-58 | The decoder inverts escape on every sequence of UTF-16 units; an escaped string has no slash. |
| `ClientId.EscapeReads` | java/com/google/tca/domain/CallerIdentity.java:38-58 | Escaping goes unit by unit: letters, digits, '-' and '.' stand for themselves, any other unit becomes '_' and its value in four lower-case hexadecimal digits. |
| `ClientId.ClientIdIsInjective` | java/com/google/tca/domain/CallerIdentity.java:34-36 | An identifier decodes to its issuer and subject, is the only string that does, and has exactly one slash: different callers have different identifiers. |
| `ClientId.EscapeLoop` | java/com/google/tca/domain/CallerIdentity.java:38-48 | The StringBuilder loop computes escape. |
| `ClientId.GetClientId` | java/com/google/tca/domain/CallerIdentity.java:34-36 | The identifier built decodes to the issuer and subject. |
| `MinimalPaths.MinimalIsUnique` | api/.devkit/scripts/list_external_mounts.py:108-113 | The set of paths under no other is the one and only antichain of the input that covers it. |
| `MinimalPaths.AncestorsFirst` | api/.devkit/scripts/list_external_mounts.py:113-114 | In sorted order a path never comes after one that lies under it. |
| `MinimalPaths.MinimizePaths` | api/.devkit/scripts/list_external_mounts.py:108-129 | Computes that set for any order of visiting; visiting distinct paths in sorted order, the removal step never removes anything. |
| `ImageTags.SortForgetsOrder` | api/.devkit/scripts/docker/build.py:453 | Sorting forgets the order in which build arguments were collected. |
| `ImageTags.TagSpells` | api/.devkit/scripts/docker/build.py:364-458 | A tag is repository and slash if there is one, namespace/name:arch-hash; what enters the hash besides the Dockerfile are the lines ARG=tag of the dependencies and A=v of the extra arguments, each as often as it occurs, ascending by characters. |
| `ImageTags.TagsExactly` | api/.devkit/scripts/docker/build.py:409-458 | An image has a tag if and only if every image it reaches is configured and has a Dockerfile; what is reported otherwise is one that does not. |
| `ImageTags.TagIsIntrinsic` | api/.devkit/scripts/docker/build.py:409-458 | A tag depends neither on which images are processed nor on their order. |
| `ImageTags.TagForgetsOrder` | api/.devkit/scripts/docker/build.py:409-458 | Nor on the order in which dependencies are declared. |
| `ImageTags.Visit` | api/.devkit/scripts/docker/build.py:279-286 | The worklist visits the least set that holds the targets and is closed under dependency. |
| `ImageTags.GetBuildOrder` | api/.devkit/scripts/docker/build.py:270-295 | Exits exactly on a cycle among what the targets need; otherwise orders, dependencies first, exactly the images that are reachable from the targets and are configured or depended upon. |
| `ImageTags.UnknownTargetDropped` | api/.devkit/scripts/docker/build.py:279-292 | A direct caller that asks an empty configuration for an unknown target gets the empty order, not an error. |
| `ImageTags.CheckTargets` | api/.devkit/scripts/docker/build.py:827-852 | The command line rejects exactly the calls that name an image which is not configured (the first one is reported) or do not name exactly one to print; otherwise every image wanted is in the order, or there is a cycle. |
| `ImageTags.DockerBuilder.CalculateTagForImage` | api/.devkit/scripts/docker/build.py:409-458 | The memoised recursion equals the plain recursive definition, never changes a remembered tag, and terminates on any acyclic configuration. |
| `ImageTags.DockerBuilder.CalculateTags` | api/.devkit/scripts/docker/build.py:398-407 | Over a build order: every image's tag, or the first failure. |
| `ImageTags.DockerBuilder.BuildImages` | api/.devkit/scripts/docker/build.py:468-519 | Each image is built under its tag, with its dependencies' tags and then its extra arguments as build arguments; it stops at the first image without a tag. |
| `ImageTags.DockerBuilder.LookUpArgs` | api/.devkit/scripts/docker/build.py:503-519 | Every dependency tag looked up without a check exists, and is that dependency's tag. |
| `ImageTags.DockerBuilder.TagForgetsTargets` | api/.devkit/scripts/docker/build.py:372-407 | An image has the same tag whichever targets it was ordered for. |

## Left out

- Real sockets, asio executors, strands and vsock: completions arrive as arguments of the handlers, one handler at a time.
- The accept and cancel signalling of BIND between `async_accept` and `async_wait` (proxy_bridge.cc:269-302): it rests on asio's cancellation; only the accepted connection is modelled.
- Bridge.ProxyBridge.AcceptInboundConnection: does not cancel the pending wait on the client socket, which only exists for that signalling.
- Bridge.ProxyBridge.Serve: after a failed connection it would still let the connection complete; the code has nothing pending then, so its runs are among those covered.
- A freelist shared between buffers or threads: the server passes none, so each buffer owns its own.
- Block storage is a field of fixed length inside the block object, as in the C++ layout, rather than a separate array; allocation does not fail, and deallocation only drops the block.
- `NumBuffersToReserve` (buffer.h:334-345): a capacity hint for a vector, with no effect on what is reserved.
- The handshake's response and bind callbacks are always installed, as the bridge installs them; the connect and destination-address callbacks may be absent.
- `required_size_` after a failure keeps its old value until the next transition; `Handshake.ChunkingIndependence` therefore says nothing about it in that state.
- In `preload.cc` everything but `socks5_client_connect` and `recv_all`; failure of `malloc` for a long domain name.
- SessionPools.ClientSessionPool.Stop: closes at once, where the code dispatches the closing to a strand, possibly for later; the pool's handlers are atomic steps, although the code runs them without a strand.
- SessionPools.ClientSessionPool.Start: sockets of an attempt that fails are not followed further; socket options and logging are not modelled.
- Two enclaves generating the root key at once: the protocol has a single writer. S3 writes are atomic, encryption is ideal, every generation is distinct.
- That a certificate in use is always in the log: a crash between the attestation write and the log write leaves only a warning on the next load (KmsMeasurementBoundCertificateProvider.java:387-390).
- X.509, attestation documents, metrics and the S3, KMS and log clients themselves.
- The check that issuer and subject are not blank, which only shrinks the inputs of `getClientId`.
- Reading configuration files, parsing the command line (its check of targets is `ImageTags.CheckTargets`) and Docker itself; the image hash is an arbitrary function of the Dockerfile and the sorted arguments.
- `graphlib` is any function that orders a graph when an order exists; which of several orders it takes is open.
- File-system scanning around `_minimize_paths`; a path is the sequence of its parts.
