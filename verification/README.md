# Verified models of the router's PPP daemon and its helpers

This project models, in Dafny, the parts of the firmware whose correctness is an argument rather than a
reading: the PPP option-negotiation automaton with LCP and IPCP on top of it, the CHAP authenticator, the
size-class memory pool, the frame check sequence, the two MD5 drivers, and the printers and parsers that
undo each other. `dafny verify dfyconfig.toml` checks all of it.

What each module is about:

- `Wire`, `Bits`: octets, big-endian fields, bits of a number.
- `Fsm`: the ten-state automaton of section 4 of RFC 1661 as step functions over a record, generic in the
  callback table. `FsmTable`: the standard's transition table as data, and that the steps
  follow it. `FsmRuns`: what holds over whole runs of any protocol. `FsmUnit`: the automaton as an
  object updated in place, each method proved equal to its step function, and taken through whole runs.
- `LcpOptions`, `LcpReject`, `LcpNak`, `LcpRequest`, `LcpMirror`: LCP's options on the wire, matching an
  Ack, taking a Reject or Nak, judging the peer's request in the packet buffer. `LcpNakMeans`, `LcpAllowed`,
  `LcpNakTaken`: what a Nak leads to, which requests are accepted, countered or refused, and both ends of the
  answers. `Lcp`: LCP as callbacks.
- `Agreement`: two machines and the line between them, for any faithful protocol.
- `IpcpOptions`, `IpcpRequest`, `IpcpMirror`, `IpcpAllowed`, `Ipcp`: the same for IPCP.
- `Chap`: the authenticator as step functions, its runs, and the unit updated in place. `ChapAnswers`: what it says
  to each event, and over runs.
- `Dlist`, `MemPool`: the intrusive circular list and the pool allocator on it. The pool's clients see a map
  from payloads to contents.
- `Fcs16`, `Md5`, `Base64`: table against bits, two drivers against one definition, decoder against
  filter-and-group.
- `Stream`, `StrObj`, `Entities`, `EndpointText`: the undo stream, the string object and its token reader,
  entity escapes, endpoint discriminators as text.

The main results, each with its partner or reference definition beside it in the table:

- Two machines on a line that loses, repeats, delays and reorders but never forges agree whenever one opens
  (`Agreement.OpensInAgreement`, `Lcp.LcpOpensInAgreement`, `Ipcp.IpcpOpensInAgreement`), and the one that
  Acks has recorded exactly what was asked for (`Lcp.LcpAcksRecord`, `Ipcp.IpcpAcksRecord`).
- Timers, up and down calls and the seen-Ack latch over all runs, with the exact exception
  (`FsmRuns.RunSoundIff`, `FsmUnit.Unit.Drive`), and the Nak counter likewise (`FsmRuns.RunNakBoundedIff`,
  `Lcp.LcpNakBoundedIff`).
- Every step of the automaton is its entry in the standard's table (`FsmTable.StepFollows`), and CHAP's in a table of
  its own (`ChapAnswers.StepFollows`); every Response taken is answered once and nobody is let in without a good one
  (`ChapAnswers.RunVerdicts`, `ChapAnswers.OpenMeansProven`).
- Which requests are Acked, countered and refused, exactly (`LcpAllowed.AnswerIff`, `LcpAllowed.AckedIff`,
  `IpcpAllowed.CodeIff`), when a counter-offer taken up is Acked (`LcpAllowed.CounterIff`,
  `IpcpAllowed.TakenUpIff`), what a Nak of our request leads to (`LcpNakMeans.NakMeans`), and that the Naks and
  Rejects one side sends are good for the other (`LcpNakTaken.NakTakenIff`, `LcpAllowed.RejectTaken`).
- The in-place passes over a peer's request refine parse, classify and filter (`LcpRequest.AnswerInPlace`,
  `IpcpRequest.AnswerInPlace`).
- An Ack is accepted exactly if it is the request sent (`LcpOptions.AckCi`, `IpcpOptions.AckCi`), a Reject
  exactly if it is an in-order choice of it (`LcpReject.RejIff`).
- The pool allocator over any run of requests, octet for octet (`MemPool.Pool.Run`), and exactly when it
  refuses or loses one (`MemPool.Pool.Malloc`, `MemPool.Pool.Realloc`).
- CHAP: transmissions, timers and verdicts over all runs (`Chap.RunTransmits`, `Chap.RunTimersIff`,
  `Chap.RunVerdictsIff`, `Chap.Server.Drive`).
- The table-driven sum is the bitwise one and catches every burst of sixteen bits (`Fcs16.PppFcs16`,
  `Fcs16.BurstCaught`); both MD5 drivers compute one function (`Md5.SameDigest`).
- Round trips with their exact conditions (`EndpointText.ReadPrintIff`, `StrObj.TokenRoundTripIff`,
  `Entities.UnescapeEscape`, `Base64.RoundTripSprinkled`, `Base64.CanonicalIff`).

Conventions. Options are records with a set of flags in place of one truth value per option. A pending timer
is a count: starting one adds one, cancelling removes all of its kind. Random numbers, secrets, system
memory, interface addresses and configuration are parameters. BCOPY and memcpy are taken as moves that allow
overlap where the source moves octets inside one buffer.

Where the code and its comments or the standard disagree, the code is followed:

- A Terminate-Ack in OPENED reports down and starts a timer but stays OPENED (fsm.c:580-583);
  `FsmRuns.RunSoundIff` gives the exact consequence, `FsmRuns.StrayExample` a run.
- Closing before the lower layer is up does not release that layer (fsm.c:214-216), against the table of the standard;
  `FsmTable.StepFollows` names it.
- IPCP counters a compression flag it does not allow with the one it wants (ipcp.c:1476), which may be the same;
  `IpcpAllowed.CounterIff` is exact, `IpcpAllowed.VjCounterExample` such an option.
- `lcp_nakci` writes the CHAP algorithms of the current options even when the Nak is bad (lcp.c:1053 and
  lcp.c:1062), against its header comment; `LcpNak.BadNakFrame` is exact. After a good Nak that write is lost,
  against the comment at lcp.c:1061; `LcpNak.GoodNakForgets` says so.
- The comparison at lcp.c:1058 binds looser than the macro in it expects; `LcpNak.ComparisonIff` is exact, and
  `LcpNak.EchoedDigestPasses` and `LcpNak.OtherDigestBad` are the two kinds of packet it misjudges.
- The counter-offer of CHAP to a request for EAP carries the set of algorithms, not a digest id (lcp.c:1591);
  `LcpRequest.EapCounterIff` says exactly when this side would accept its own offer.
- LCP still Naks its own magic number when told to get tough; `Lcp.ToughNakIff` is exact, and
  `Lcp.LcpNakBoundedIff` for whole runs.
- IPCP overwrites a name server address even when the option is then refused (ipcp.c:1411-1417 and ipcp.c:1432-1438);
  `IpcpRequest.RejectVerbatimIff` is exact, `IpcpRequest.RejectRewrites` a request.
- A CHAP Response is judged even when the lower layer is down, and asking to authenticate again while a timer
  is pending adds a second one; `Chap.RunVerdictsIff` and `Chap.RunTimersIff` are exact.
- `mh_realloc` gives the old block back even when it finds no new one; `MemPool.Pool.Realloc` says exactly when.
- With the negotiated local address ignored, coming up may leave IPCP's options standing for another address
  than was Acked; `Ipcp.IpcpOpensInAgreement` is exact, `Ipcp.OverrideExample` a run.
- The block loop of one MD5 driver never ends on a chunk that with the octets buffered reaches 2^32;
  `Md5.LoopEndsIff` is exact, `Md5.EndlessExample` such a chunk.
- The base64 encoder reads one octet past a short last block; `Base64.CanonicalIff` is exact,
  `Base64.PastExample` an input.
- A string put back into a stream fails on the character with all bits set, which looks like the end mark.

Two branches that no configuration of the daemon reaches are modelled as they stand: the quality protocol, which
no option turns on (`LcpMirror.AckMirrors` says what would become of it), and an address option that finds no
room, which takes a peer that receives less than 128 octets (`IpcpOptions.PutIsAskedIff`,
`IpcpOptions.AllAskedGoesOut`).

## Model

| member | source | states |
|---|---|---|
| `FsmRuns.RunSoundIff` | progs.gpl/pppd.alpha/fsm.c:97-696 | for every callback table and every run: one restart timer pending exactly in the five waiting states and none elsewhere, up and down calls strictly alternating and saying up exactly in OPENED, and the seen-Ack latch set in ACKRCVD and OPENED, in every state visited, if and only if no Terminate-Ack was taken in OPENED |
| `FsmRuns.StepSound` | progs.gpl/pppd.alpha/fsm.c:97-696 | every step other than that one keeps timers, calls and latch in order |
| `FsmRuns.StrayTermAckUnsound` | progs.gpl/pppd.alpha/fsm.c:580-583 | a Terminate-Ack in OPENED always leaves the state OPENED with the layer above told it is down and a timer running |
| `FsmTable.StepFollows` | progs.gpl/pppd.alpha/fsm.c:97-719 | every step of every protocol is its entry in the state transition table of section 4.1 of RFC 1661, written out as data: next state, every packet sent with its code, id and contents and no other, every call, and the restart counter; the two entries not followed are named |
| `FsmTable.TermReqAnswered` | progs.gpl/pppd.alpha/fsm.c:528-554 | any Terminate-Request that reaches a machine past STARTING draws exactly one packet, a Terminate-Ack with its id and no data, and the next state is STOPPING from OPENED, REQSENT from ACKRCVD and ACKSENT, else the same |
| `FsmTable.RequestIs` | progs.gpl/pppd.alpha/fsm.c:657-696 | a Configure-Request holds what the protocol makes of its options, reset unless a negotiation is going on, under a new id unless it repeats the last one |
| `FsmTable.AnswerIs` | progs.gpl/pppd.alpha/fsm.c:378-416 | the answer to a request, what may follow it, and the count of Naks since the last Ack |
| `FsmRuns.OpenedReached` | progs.gpl/pppd.alpha/fsm.c:97-469 | a run from the start that reaches OPENED, in order |
| `FsmRuns.StrayExample` | progs.gpl/pppd.alpha/fsm.c:580-583 | and goes on to the failing state: OPENED, told down, a timer running |
| `FsmRuns.RunLatch` | progs.gpl/pppd.alpha/fsm.c:422-469 | on every run without exception ACKRCVD implies the seen-Ack latch |
| `FsmRuns.RepliesIgnoredOnceAcked` | progs.gpl/pppd.alpha/fsm.c:422-522 | in every reachable ACKRCVD state a further Ack, Nak or Reject changes nothing at all, so the branches for a second Ack and for a Nak after an Ack never execute |
| `FsmRuns.OptionsHeldWhileAcked` | progs.gpl/pppd.alpha/fsm.c:351-522 | while a machine stays in ACKRCVD the only thing that changes the option state is judging the peer's own requests |
| `FsmRuns.SilenceSends` | progs.gpl/pppd.alpha/fsm.c:246-288 | k timeouts in a row, while transmissions are left, send k more packets of the right code and, for requests, the same id |
| `FsmRuns.SilenceStops` | progs.gpl/pppd.alpha/fsm.c:246-288 | with r transmissions left a machine hearing nothing stops at exactly the timeout number max(r,0)+1, after exactly max(r,0) sends |
| `FsmRuns.FreshRequestCount` | progs.gpl/pppd.alpha/fsm.c:657-696 | a fresh request to a silent peer goes out exactly max(1, limit) times, all under one id |
| `FsmRuns.TerminatedSound` | progs.gpl/pppd.alpha/fsm.c:224-238 | ending a negotiation or an open link leaves one timer, tells the layer above once exactly if it thought the link up, and sends exactly one packet, a Terminate-Request |
| `FsmRuns.SettledSound` | progs.gpl/pppd.alpha/fsm.c:398-415 | whatever a request is answered with, timers, calls and latch are in order afterwards |
| `FsmRuns.RunNakBoundedIff` | progs.gpl/pppd.alpha/fsm.c:378-416 | for every callback table and every run: the Nak counter stays within its limit in every state visited if and only if no request is Nak'd once the limit is reached |
| `FsmRuns.RunNakBounded` | progs.gpl/pppd.alpha/fsm.c:380-415 | if the protocol never Naks once told to get tough, the Nak counter never passes its limit on any run |
| `Fsm.ParseFormat` | progs.gpl/pppd.alpha/fsm.c:294-321 | a packet put on the line, with any padding after it, is parsed back to the same code, id and data |
| `FsmUnit.Unit.constructor` | progs.gpl/pppd.alpha/fsm.c:81-91 | a new unit is in the initial state of the automaton, which is in order |
| `FsmUnit.Unit.SData` | progs.gpl/pppd.alpha/fsm.c:704-719 | the packet sent is cut to the peer's receive limit and nothing else changes |
| `FsmUnit.Unit.PrepareRequest` | progs.gpl/pppd.alpha/fsm.c:657-675 | a new request gets a new id and a full transmission count, a retransmission keeps both; the latch is cleared |
| `FsmUnit.Unit.SConfReq` | progs.gpl/pppd.alpha/fsm.c:657-696 | the unit's state afterwards is that of the step function that sends a Configure-Request of the current options and starts the timer |
| `FsmUnit.Unit.STermReq` | progs.gpl/pppd.alpha/fsm.c:233-235 | a Terminate-Request under a new id, one transmission used, one timer started |
| `FsmUnit.Unit.LowerLayerUp` | progs.gpl/pppd.alpha/fsm.c:97-120 | the step taken when the lower layer comes up, in each of the states |
| `FsmUnit.Unit.TellDown` | progs.gpl/pppd.alpha/fsm.c:154-157 | the layer above is told once |
| `FsmUnit.Unit.LowerLayerDown` | progs.gpl/pppd.alpha/fsm.c:128-163 | the step taken when the lower layer goes down |
| `FsmUnit.Unit.OpenLayer` | progs.gpl/pppd.alpha/fsm.c:169-199 | the step taken on an open request |
| `FsmUnit.Unit.RestartIfAsked` | progs.gpl/pppd.alpha/fsm.c:190-197 | a restart is a lower-layer down followed by an up, and only with the restart flag |
| `FsmUnit.Unit.Quieten` | progs.gpl/pppd.alpha/fsm.c:224-229 | leaving OPENED tells the layer above, leaving a negotiation cancels the timer |
| `FsmUnit.Unit.Terminate` | progs.gpl/pppd.alpha/fsm.c:224-238 | from a negotiating or open unit in order: one Terminate-Request and no other packet sent, one timer pending, the layer above told once exactly if it thought the link up, timers, calls and latch in order again |
| `FsmUnit.Unit.CloseLayer` | progs.gpl/pppd.alpha/fsm.c:208-240 | the step taken on a close request |
| `FsmUnit.Unit.CloseProtocol` | progs.gpl/pppd.alpha/lcp.c:432-447 | the protocol's own close, with the early end of a stopped passive or silent LCP |
| `FsmUnit.Unit.TellUp` | progs.gpl/pppd.alpha/fsm.c:403-404 | the layer above is told it is up and may close at once |
| `FsmUnit.Unit.TimerFires` | progs.gpl/pppd.alpha/fsm.c:246-288 | the step taken when the restart timer fires |
| `FsmUnit.Unit.TerminateTimeout` | progs.gpl/pppd.alpha/fsm.c:252-265 | terminating: one more Terminate-Request, or the end with the lower layer released |
| `FsmUnit.Unit.ConfigureTimeout` | progs.gpl/pppd.alpha/fsm.c:267-282 | negotiating: one more request, or STOPPED, with the lower layer released unless passive |
| `FsmUnit.Unit.ReceiveConfReq` | progs.gpl/pppd.alpha/fsm.c:351-416 | the step taken on a Configure-Request |
| `FsmUnit.Unit.Answer` | progs.gpl/pppd.alpha/fsm.c:378-416 | the request is judged with the tough flag exactly when the Nak limit is reached, and the answer sent |
| `FsmUnit.Unit.Settle` | progs.gpl/pppd.alpha/fsm.c:398-415 | whatever the answer just sent, timers, calls and latch are in order: one timer while waiting, none once opened, the layer above told exactly on opening |
| `FsmUnit.Unit.ReceiveConfAck` | progs.gpl/pppd.alpha/fsm.c:422-469 | the step taken on a Configure-Ack |
| `FsmUnit.Unit.ReceiveConfRefused` | progs.gpl/pppd.alpha/fsm.c:475-522 | the step taken on a Configure-Nak or Configure-Reject |
| `FsmUnit.Unit.TryAgain` | progs.gpl/pppd.alpha/fsm.c:491-521 | what follows a good refusal, in each state |
| `FsmUnit.Unit.ReceiveTermReq` | progs.gpl/pppd.alpha/fsm.c:528-554 | the step taken on a Terminate-Request |
| `FsmUnit.Unit.ReceiveTermAck` | progs.gpl/pppd.alpha/fsm.c:560-585 | the step taken on a Terminate-Ack |
| `FsmUnit.Unit.ReceiveCodeRej` | progs.gpl/pppd.alpha/fsm.c:591-605 | a Code-Reject only ever takes ACKRCVD back to REQSENT |
| `FsmUnit.Unit.ReceiveUnknown` | progs.gpl/pppd.alpha/fsm.c:340-343 | an unknown code is handled by the protocol or answered with a Code-Reject of the whole packet |
| `FsmUnit.Unit.LayerInput` | progs.gpl/pppd.alpha/fsm.c:294-345 | the step taken on a received frame, well formed or not |
| `FsmUnit.Unit.ProtocolRejected` | progs.gpl/pppd.alpha/fsm.c:613-651 | the step taken on a Protocol-Reject |
| `FsmUnit.Unit.Handle` | progs.gpl/pppd.alpha/fsm.c:97-696 | one event of any kind: the state afterwards is that of the reference step and follows the table |
| `FsmUnit.Unit.Drive` | progs.gpl/pppd.alpha/fsm.c:97-696 | a new unit taken through any events goes through exactly the states of the reference run; timers, calls and latch are in order in all of them if and only if no Terminate-Ack was taken in OPENED; ACKRCVD implies the latch in every one |
| `Agreement.OpensInAgreement` | progs.gpl/pppd.alpha/fsm.c:351-522 | for any faithful protocol on both ends of a line that may lose, repeat, delay and reorder but not forge: a side reports up, once, exactly when it enters OPENED; then the other side has Acked, under the id of the last request, exactly the octets that the options it enters OPENED with stand for, in answer to a request it sent under that id, and its own last answer is an Ack returning a request the other side sent; the options it is left with are those after the up call; ids may wrap |
| `Agreement.StepGood` | progs.gpl/pppd.alpha/fsm.c:97-696 | one step of one side keeps the link between its state and the packets sent by both sides, and reports up exactly if it enters OPENED, in agreement |
| `Agreement.StepGrows` | progs.gpl/pppd.alpha/fsm.c:704-719 | packets once sent stay sent, so what a side knows stays true |
| `Agreement.RunBound` | progs.gpl/pppd.alpha/fsm.c:97-696 | the link between both states and all packets sent holds after every allowed run |
| `Lcp.LcpFaithful` | progs.gpl/pppd.alpha/lcp.c:621-1837 | LCP's callbacks are faithful: what is sent is the current options, only their exact octets count as an Ack, an Ack returns the request unchanged, and judging the peer leaves our request alone |
| `Lcp.LcpOpensInAgreement` | progs.gpl/pppd.alpha/lcp.c:678-891 | two LCP machines, any configuration, any random numbers, any allowed run: agreement at each opening, and the options left after the up call still stand for the octets Acked |
| `Lcp.AckRecordsRequest` | progs.gpl/pppd.alpha/lcp.c:1398-1786 | the machine that Acks our request has at that moment recorded exactly the options asked for, value for value, and all their flags unless it allows the quality protocol, which no configuration of this daemon does |
| `Lcp.LcpAcksRecord` | progs.gpl/pppd.alpha/lcp.c:1398-1786 | two LCP machines on any allowed run: every Ack one sends returns a request the other sent, and its record of the other then mirrors the options that request stands for, value for value |
| `Lcp.QualityHeld` | progs.gpl/pppd.alpha/lcp.c:621-1860 | no callback ever allows the quality protocol or stops allowing it |
| `Agreement.RunAcksAnswer` | progs.gpl/pppd.alpha/fsm.c:351-416 | for any faithful protocol on any allowed run: an Ack is sent only on judging a request, returns it unchanged, that request is one the other side sent and its options stood for, and the options afterwards are those the judgement left |
| `Agreement.StepAcks` | progs.gpl/pppd.alpha/fsm.c:351-416 | a step sends an Ack only as the answer to the request it receives |
| `Lcp.ResetMeans` | progs.gpl/pppd.alpha/lcp.c:621-640 | what a reset leaves wanted, asked for and allowed, flag by flag |
| `Lcp.UpMeans` | progs.gpl/pppd.alpha/lcp.c:1792-1837 | coming up sets the size of packets to the peer's MRU and clears magic numbers not negotiated, and nothing else |
| `Lcp.EchoAnswered` | progs.gpl/pppd.alpha/lcp.c:522-560 | an Echo-Request in OPENED draws exactly one Echo-Reply with its id, our magic number and the rest of its contents; elsewhere it draws nothing |
| `Lcp.RequestHeldWhileAcked` | progs.gpl/pppd.alpha/fsm.c:351-522 | while an LCP machine stays in ACKRCVD on any run, the options it asked for do not change |
| `LcpMirror.AckMirrors` | progs.gpl/pppd.alpha/lcp.c:1443-1732 | if a request built from some options is Acked, the record kept of the peer has exactly those flags and values: all flags sent, if the quality protocol is not allowed, as in this daemon; were it allowed, the flags recorded would be the flags sent if and only if no quality protocol was asked for; a request for callback is never Acked |
| `LcpMirror.PiecesOfFlatten` | progs.gpl/pppd.alpha/lcp.c:1421-1441 | well-formed options run together are cut apart again into the same options |
| `LcpOptions.CiLenExact` | progs.gpl/pppd.alpha/lcp.c:645-748 | the length announced is exactly the length put, and fits the smallest packet any peer may ask for |
| `LcpOptions.PutCi` | progs.gpl/pppd.alpha/lcp.c:683-727 | one option put at a cursor: header and body, earlier octets kept |
| `LcpOptions.FillAuth` | progs.gpl/pppd.alpha/lcp.c:730-734 | the options up to the authentication protocol are in the buffer, in order |
| `LcpOptions.FillMagic` | progs.gpl/pppd.alpha/lcp.c:730-737 | the options up to the magic number are in the buffer, in order |
| `LcpOptions.FillRequest` | progs.gpl/pppd.alpha/lcp.c:678-748 | the buffer holds the whole request of the current options, of exactly the announced length |
| `LcpOptions.AckHeader` | progs.gpl/pppd.alpha/lcp.c:769-777 | a type, length and room test that fails whenever the option sent is not at the cursor |
| `LcpOptions.AckVoid` | progs.gpl/pppd.alpha/lcp.c:769-778 | matches at the cursor exactly an option without a value |
| `LcpOptions.AckChar` | progs.gpl/pppd.alpha/lcp.c:792-804 | matches exactly an option of one octet |
| `LcpOptions.AckShort` | progs.gpl/pppd.alpha/lcp.c:779-791 | matches exactly an option of two octets |
| `LcpOptions.AckChap` | progs.gpl/pppd.alpha/lcp.c:805-820 | matches exactly the CHAP option with the digest sent |
| `LcpOptions.AckLong` | progs.gpl/pppd.alpha/lcp.c:821-833 | matches exactly an option of four octets |
| `LcpOptions.AckLqr` | progs.gpl/pppd.alpha/lcp.c:834-849 | matches exactly the quality option |
| `LcpOptions.AckEndpoint` | progs.gpl/pppd.alpha/lcp.c:850-868 | matches exactly the endpoint option, octet by octet |
| `LcpOptions.AckAuth` | progs.gpl/pppd.alpha/lcp.c:870-874 | the walk up to the authentication protocol succeeds exactly if that much of the packet is what was sent |
| `LcpOptions.AckMagic` | progs.gpl/pppd.alpha/lcp.c:870-877 | the walk up to the magic number, likewise |
| `LcpOptions.SameOctets` | progs.gpl/pppd.alpha/lcp.c:863-867 | the loop accepts exactly equal octets |
| `LcpOptions.AckCi` | progs.gpl/pppd.alpha/lcp.c:759-891 | an Ack is accepted if and only if it is octet for octet the request the current options produce |
| `LcpReject.RejIff` | progs.gpl/pppd.alpha/lcp.c:1248-1388 | a Reject is good with a given result if and only if it is an in-order choice of our options, unchanged, and the result is our options with exactly those given up (CHAP taking EAP and PAP with it) |
| `LcpReject.SentSublistAccepted` | progs.gpl/pppd.alpha/lcp.c:1248-1388 | every in-order sub-list of the options actually sent is accepted and clears exactly its flags |
| `LcpReject.AddCiIsSent` | progs.gpl/pppd.alpha/lcp.c:730-742 | the request is the options actually sent, run together |
| `LcpReject.RejLowers` | progs.gpl/pppd.alpha/lcp.c:1248-1388 | a good Reject of something strictly lowers the number of options asked for |
| `LcpReject.RejectsRunOut` | progs.gpl/pppd.alpha/lcp.c:1248-1388 | good non-empty Rejects in a row are no more than the options asked for at the start |
| `LcpReject.RejKeepsValues` | progs.gpl/pppd.alpha/lcp.c:1248-1388 | a good Reject changes no value, only flags |
| `LcpReject.RejOption` | progs.gpl/pppd.alpha/lcp.c:1262-1355 | one option at the cursor is a hit, bad, or not there |
| `LcpReject.RejSlot` | progs.gpl/pppd.alpha/lcp.c:1262-1376 | the walk over one more option follows the reference walk |
| `LcpReject.RejAuth` | progs.gpl/pppd.alpha/lcp.c:1358-1368 | the walk up to the authentication protocol, likewise |
| `LcpReject.RejectOptions` | progs.gpl/pppd.alpha/lcp.c:1248-1388 | the pass returns 1 exactly for a good Reject and then updates the options, unless it is bad or the state is OPENED, when nothing changes |
| `LcpRequest.AnswerInPlace` | progs.gpl/pppd.alpha/lcp.c:1398-1786 | the one in-place pass equals parse, classify and filter for every request: an Ack returns the request, a Reject exactly the refused options verbatim and in order, a Nak the counter-offers in order; options not yet judged are never overwritten; the buffer need only have room for the answer |
| `LcpAllowed.RulingIff` | progs.gpl/pppd.alpha/lcp.c:1443-1732 | an option is refused exactly if it is not of a kind the peer may have, or misshapen, or on top of another authentication protocol; accepted exactly if it is not and its value suits; countered otherwise |
| `LcpAllowed.AnswerIff` | progs.gpl/pppd.alpha/lcp.c:1421-1762 | a request is Acked exactly if every option is fine in its place, and Rejected exactly if one is hopeless in its place, tough or not |
| `LcpAllowed.RecordedIsAllowed` | progs.gpl/pppd.alpha/lcp.c:1443-1732 | whatever is asked, what is recorded, and so Acked, is only what the peer may have: an allowed protocol and only one, a digest we can do, an MRU of at least 128, every bit of the asyncmap we need, multilink options only with multilink, no magic number of ours |
| `LcpAllowed.AckedIff` | progs.gpl/pppd.alpha/lcp.c:1398-1786 | the request some options make is Acked if and only if each option it carries is one the peer may have with a value that suits |
| `LcpAllowed.CounterIff` | progs.gpl/pppd.alpha/lcp.c:1443-1732 | what each counter-offer says, and that sent back alone it is accepted if and only if a CHAP digest in it is one we can do and a magic number drawn is not our own |
| `LcpAllowed.RejectTaken` | progs.gpl/pppd.alpha/lcp.c:1248-1786 | both ends of a Reject: every Reject of a request is good for the side that sent the request, which then asks for exactly the options not refused, and some option was |
| `LcpNakTaken.NakTakenIff` | progs.gpl/pppd.alpha/lcp.c:903-1786 | both ends of a Nak: every Nak of a request is good for the side that sent the request, if and only if it is not the answer of one that can do no CHAP digest to one that asked for CHAP without a digest |
| `LcpNakTaken.NoDigestExample` | progs.gpl/pppd.alpha/lcp.c:1541-1573 | that case |
| `LcpRequest.OneOption` | progs.gpl/pppd.alpha/lcp.c:1421-1762 | one round of the loop keeps the relation between buffer, cursors and the options judged so far |
| `LcpRequest.JudgeNext` | progs.gpl/pppd.alpha/lcp.c:1421-1441 | the next option is cut off, or the rest taken as one bad option, and judged |
| `LcpRequest.Decide` | progs.gpl/pppd.alpha/lcp.c:1734-1755 | if code and counter-offers are those that the rulings so far lead to, they are afterwards those that the rulings with one more lead to, and the option is refused exactly if that ruling is a refusal |
| `LcpRequest.MoveDown` | progs.gpl/pppd.alpha/lcp.c:1753-1760 | a refused option moves down behind those already refused; what follows it stays |
| `LcpRequest.Gather` | progs.gpl/pppd.alpha/lcp.c:1753-1760 | an option that is not refused stays where it is |
| `LcpRequest.PassStep` | progs.gpl/pppd.alpha/lcp.c:1734-1762 | the buffer after one option, against the reference filter |
| `LcpRequest.AnswerSize` | progs.gpl/pppd.alpha/lcp.c:1398-1786 | the answer is at most a quarter longer than the request |
| `LcpRequest.EapCounterIff` | progs.gpl/pppd.alpha/lcp.c:1585-1592 | the CHAP option offered to a request for EAP is one this side would accept itself, if and only if its set of algorithms, read as a digest id, is one of its own members |
| `LcpRequest.SelfDigestIff` | progs.gpl/pppd.alpha/lcp.c:1585-1592 | which of all sets of the three algorithms holds only of MD5 with the newer Microsoft digest |
| `LcpRequest.EapCounterExample` | progs.gpl/pppd.alpha/lcp.c:1585-1592 | a side that can do MD5 offers digest 4 and would not take it up |
| `LcpRequest.CounterSize` | progs.gpl/pppd.alpha/lcp.c:1443-1732 | a counter-offer is at most a quarter longer than the option it answers |
| `Lcp.ToughNakIff` | progs.gpl/pppd.alpha/lcp.c:1739-1751 | told to get tough, LCP still Naks exactly the requests in which nothing is refused and our own magic number comes back |
| `Lcp.ToughCounter` | progs.gpl/pppd.alpha/lcp.c:1651-1671 | per option: only our own magic number is still countered |
| `Lcp.OnlyMagicNaks` | progs.gpl/pppd.alpha/lcp.c:1651-1671 | a request of nothing but our own magic number is Nak'd, tough or not |
| `Lcp.LcpNakBoundedIff` | progs.gpl/pppd.alpha/lcp.c:1739-1751 | on every run LCP's Nak counter stays within its limit if and only if, once the limit is reached, no request returns our own magic number without something to refuse |
| `Lcp.MagicNakPassesLimit` | progs.gpl/pppd.alpha/lcp.c:1739-1751 | from the start of a machine that wants a magic number, a line that returns it n times brings the Nak counter to n, for every n and whatever the limit |
| `LcpNak.NakOptions` | progs.gpl/pppd.alpha/lcp.c:903-1236 | the pass over a Nak computes the reference walk on every packet, good or bad, in any state |
| `LcpNakMeans.NakMeans` | progs.gpl/pppd.alpha/lcp.c:903-1236 | from the octets of a Nak: it is good exactly if it does not suggest what we asked for and its further options are unasked and well formed; after a good one outside OPENED every field of the next request is given, each flag is cleared exactly for an option given up, and closing is asked for exactly at the allowed number of loops |
| `LcpNakMeans.ExtrasMean` | progs.gpl/pppd.alpha/lcp.c:1163-1211 | the options after ours: when they make a Nak bad and what they add |
| `LcpNakMeans.NakExample` | progs.gpl/pppd.alpha/lcp.c:1005-1012 | an MRU of 1280 suggested is the one asked for next |
| `LcpNak.NakYields` | progs.gpl/pppd.alpha/lcp.c:903-1236 | any Nak, good or bad: the asyncmap asked for only gains bits, MRU and MRRU stay within what was wanted |
| `LcpNak.BadNakFrame` | progs.gpl/pppd.alpha/lcp.c:893-1236 | a bad Nak, or any Nak in OPENED, changes no option but the set of CHAP algorithms, and leaves that too if and only if it does not suggest, at the place of the authentication option, another digest we can do |
| `LcpNak.BadNakWrites` | progs.gpl/pppd.alpha/lcp.c:1044-1076 | a bad Nak that leaves MD5 alone of MD5 and the newer Microsoft digest |
| `LcpNak.GoodNakForgets` | progs.gpl/pppd.alpha/lcp.c:1044-1236 | a good Nak outside OPENED never leads to the set suggested: the set is the old one, or the old one without its first choice |
| `LcpNak.ComparisonIff` | progs.gpl/pppd.alpha/lcp.c:1058-1058 | the comparison as written tells another digest from ours, if and only if the digest is not ours (or we can do none) and it is not digest 1 while the newer Microsoft one is our choice |
| `LcpNak.ChapNakBadIff` | progs.gpl/pppd.alpha/lcp.c:1044-1076 | a Nak of nothing but a CHAP option is called bad exactly if its digest is taken for ours |
| `LcpNak.EchoedDigestPasses` | progs.gpl/pppd.alpha/lcp.c:1055-1062 | a Nak suggesting the very digest we asked for is taken as good and answered with the same request, octet for octet |
| `LcpNak.OtherDigestBad` | progs.gpl/pppd.alpha/lcp.c:1055-1062 | a Nak suggesting digest 1 is called bad when the newer Microsoft digest is our choice |
| `Lcp.RepliesBounded` | progs.gpl/pppd.alpha/lcp.c:903-1388 | over any sequence of Naks and Rejects in one negotiation: the asyncmap only gains bits, MRU at most the larger of wanted and 1500, MRRU at most the wanted one |
| `Lcp.TakeReplies` | progs.gpl/pppd.alpha/lcp.c:903-1388 | the two passes run over any sequence of Naks and Rejects leave what the reference walks call for, and stay within what was wanted if they start there |
| `LcpNak.YieldsKeeps` | progs.gpl/pppd.alpha/lcp.c:903-1236 | limits once met stay met |
| `Bits.OrGains` | progs.gpl/pppd.alpha/lcp.c:1014-1020 | or-ing in bits keeps all bits of both operands |
| `IpcpOptions.CiLenExact` | progs.gpl/pppd.alpha/ipcp.c:655-691 | the announced length is exactly that of the request |
| `IpcpOptions.AckCi` | progs.gpl/pppd.alpha/ipcp.c:791-905 | an Ack is accepted if and only if it is octet for octet the request of the current options |
| `IpcpOptions.Announce` | progs.gpl/pppd.alpha/ipcp.c:655-691 | the options adjusted to older forms the peer understands, and exactly the length of the request they then make |
| `IpcpOptions.FallbackAsks` | progs.gpl/pppd.alpha/ipcp.c:667-683 | a wanted address is always asked for in one form or the other, nothing asked for is withdrawn, and compression is asked for again only in the old form with the peer's own protocol number |
| `Ipcp.ResetOptions` | progs.gpl/pppd.alpha/ipcp.c:626-649 | an address nobody set will be taken from the peer, a peer address chosen by the hook is fixed, the peer is asked for its address if both sides can speak of one, name servers are asked for as configured, and everything else is asked for as it is wanted |
| `Ipcp.ResetMeans` | progs.gpl/pppd.alpha/ipcp.c:626-649 | that meaning holds of the reset and determines it |
| `IpcpOptions.AckAddrs` | progs.gpl/pppd.alpha/ipcp.c:802-820 | matches exactly the old two-address option |
| `IpcpOptions.AckVj` | progs.gpl/pppd.alpha/ipcp.c:836-857 | matches exactly the compression option, in its long or its short form |
| `IpcpOptions.AckAddress` | progs.gpl/pppd.alpha/ipcp.c:890-892 | the walk up to the address option succeeds exactly if that much is what was sent |
| `IpcpOptions.AddedInFull` | progs.gpl/pppd.alpha/ipcp.c:698-780 | with room for the whole request all of it is put and nothing is given up |
| `IpcpOptions.PutIsAskedIff` | progs.gpl/pppd.alpha/ipcp.c:698-780 | however little room there is, what goes out is what the options left standing ask for, if and only if the address option did not run out of room while the old form was enabled |
| `IpcpOptions.AllAskedGoesOut` | progs.gpl/pppd.alpha/ipcp.c:698-780 | with the room every peer leaves, at least 124 octets, the address is never lost, nothing is given up and what goes out is all that is asked for |
| `Ipcp.SendsAllAsked` | progs.gpl/pppd.alpha/ipcp.c:655-780 | the request an IPCP unit sends is all that its options ask for, older forms put in where the peer wants them |
| `IpcpOptions.AskedFitsThenPut` | progs.gpl/pppd.alpha/ipcp.c:698-780 | what the options left standing ask for either went out in full or would not have fitted |
| `IpcpOptions.PutOption` | progs.gpl/pppd.alpha/ipcp.c:746-757 | one option put, or dropped exactly if there is no room |
| `IpcpOptions.PutSlot` | progs.gpl/pppd.alpha/ipcp.c:703-778 | one more option, against the reference list |
| `IpcpOptions.FillAddress` | progs.gpl/pppd.alpha/ipcp.c:772-774 | the options up to the address, against the reference list |
| `IpcpOptions.FillRequest` | progs.gpl/pppd.alpha/ipcp.c:698-780 | buffer and options afterwards are those of the reference list for the given room |
| `IpcpRequest.AnswerInPlace` | progs.gpl/pppd.alpha/ipcp.c:1260-1552 | the in-place pass, rewriting values where it stands, equals parse, classify and filter for every request, including the appended wish for an address; the buffer need only have room for the answer |
| `IpcpAllowed.CodeIff` | progs.gpl/pppd.alpha/ipcp.c:1306-1493 | an option is refused exactly if it is not allowed, misshapen, on top of the other form of address, or an address unknown to both sides; accepted exactly if it is not and its value is welcome; countered otherwise |
| `IpcpAllowed.CounterIff` | progs.gpl/pppd.alpha/ipcp.c:1306-1493 | what each counter-offer says, the peer's address for the peer and ours for us among it, and that sent back alone it is accepted if and only if the address to suggest is known and the compression flag to suggest is not one refused |
| `IpcpAllowed.TakenUpIff` | progs.gpl/pppd.alpha/ipcp.c:1260-1552 | a peer whose request was Nak'd and that asks again with every counter-offer in its place, or only sends the Nak back, is Acked if and only if every counter-offer can be made good, an address wished for is known and allowed, our own address is not taken back, and an address is named as long as one is asked for |
| `IpcpAllowed.NakCarries` | progs.gpl/pppd.alpha/ipcp.c:1495-1552 | a Nak carries exactly the counter-offers in order and the wish for an address |
| `IpcpAllowed.VjCounterExample` | progs.gpl/pppd.alpha/ipcp.c:1468-1478 | an option Nak'd with itself |
| `IpcpRequest.OneOption` | progs.gpl/pppd.alpha/ipcp.c:1287-1528 | one round of the loop keeps the relation between buffer, cursors and options judged |
| `IpcpRequest.NextInPlace` | progs.gpl/pppd.alpha/ipcp.c:1287-1304 | the next option is cut off and judged in place, or the rest taken as one bad option |
| `IpcpRequest.OptionInPlace` | progs.gpl/pppd.alpha/ipcp.c:1306-1493 | the buffer afterwards differs from before in that one option, as its judgement says |
| `IpcpRequest.AddrsInPlace` | progs.gpl/pppd.alpha/ipcp.c:1308-1363 | the old address option, judged and countered in place |
| `IpcpRequest.AddrInPlace` | progs.gpl/pppd.alpha/ipcp.c:1365-1397 | the address option, likewise |
| `IpcpRequest.ServerInPlace` | progs.gpl/pppd.alpha/ipcp.c:1399-1439 | a name server option, likewise |
| `IpcpRequest.VjInPlace` | progs.gpl/pppd.alpha/ipcp.c:1441-1488 | the compression option, likewise |
| `IpcpRequest.Decide` | progs.gpl/pppd.alpha/ipcp.c:1495-1521 | a weaker ruling is skipped, a stronger one starts the answer afresh |
| `IpcpRequest.Gather` | progs.gpl/pppd.alpha/ipcp.c:1495-1527 | the answer so far at the front of the buffer, the rest untouched |
| `IpcpRequest.PutAsk` | progs.gpl/pppd.alpha/ipcp.c:1543-1546 | the wish for an address, appended |
| `IpcpRequest.ToughNeverNaks` | progs.gpl/pppd.alpha/ipcp.c:1500-1513 | once told to get tough the answer is never a Nak |
| `IpcpRequest.AckIsRequest` | progs.gpl/pppd.alpha/ipcp.c:1495-1552 | an Ack returns the request octet for octet, and the answer is always one of the three codes |
| `IpcpRequest.AckedAddresses` | progs.gpl/pppd.alpha/ipcp.c:1308-1397 | an Ack never covers a zero peer address nor one against an address fixed for the peer |
| `IpcpRequest.RejectVerbatimIff` | progs.gpl/pppd.alpha/ipcp.c:1399-1439 | a Reject carries the refused options as sent, if and only if it is not a tough answer to a name server option with another address than ours, which goes back rewritten |
| `IpcpRequest.RejectRewrites` | progs.gpl/pppd.alpha/ipcp.c:1399-1439 | such a Reject: 1.2.3.4 refused comes back as 5.6.7.8 |
| `IpcpRequest.RewrittenIff` | progs.gpl/pppd.alpha/ipcp.c:1399-1439 | per option: exactly those go back changed |
| `IpcpRequest.WorstIs` | progs.gpl/pppd.alpha/ipcp.c:1495-1521 | the code returned bounds every ruling and is attained |
| `Ipcp.IpcpNakBounded` | progs.gpl/pppd.alpha/ipcp.c:1260-1552 | hence on no IPCP run does the count of Naks pass its limit |
| `Ipcp.IpcpFaithful` | progs.gpl/pppd.alpha/ipcp.c:626-905 | IPCP's callbacks are faithful in the sense of the agreement theorem, for any handling of Naks and Rejects |
| `Ipcp.IpcpOpensInAgreement` | progs.gpl/pppd.alpha/ipcp.c:626-905 | two IPCP machines, any configuration: agreement at each opening on the options it opens with; the options left after the up call stand for the octets Acked if and only if the negotiated local address is not ignored, or was not asked for, or is the wanted one |
| `IpcpMirror.AckMirrors` | progs.gpl/pppd.alpha/ipcp.c:1287-1528 | if a request built from some options is Acked, the record kept of the peer is exactly the mirror of those options: its address, in the older form both addresses, and the compression, value for value |
| `IpcpMirror.PiecesOfFull` | progs.gpl/pppd.alpha/ipcp.c:1287-1304 | a request is cut apart again into the options it was made of |
| `Ipcp.IpcpAcksRecord` | progs.gpl/pppd.alpha/ipcp.c:1260-1552 | two IPCP machines on any allowed run: every Ack one sends returns a request the other sent, and judging it left that mirror as record of the other |
| `Ipcp.OverrideExample` | progs.gpl/pppd.alpha/ipcp.c:1640-1644 | a run from the start in which address 0 is asked for and Acked and the unit opens with address 1 |
| `Ipcp.UpKeepsRequestIff` | progs.gpl/pppd.alpha/ipcp.c:1640-1644 | coming up leaves the request of the current options as it was, exactly unless that option is on, the address was asked for and differs |
| `Chap.RunTransmits` | progs.gpl/pppd.alpha/chap.c:972-1000 | on every run each challenge goes out at most max(1, max_transmits) times |
| `Chap.StepBounded` | progs.gpl/pppd.alpha/chap.c:225-312 | every step keeps the count of transmissions, and repeats of a challenge carry the same id and value |
| `Chap.SilentPeer` | progs.gpl/pppd.alpha/chap.c:251-280 | to a silent peer the challenge is repeated until exactly max(1, max_transmits) sends, then the peer has failed; the whole trace is given |
| `ChapAnswers.StepFollows` | progs.gpl/pppd.alpha/chap.c:225-755 | every step is its entry in a table of states and events: the next state and everything said, in order, with the number, id and contents of each challenge and verdict, and nothing else |
| `ChapAnswers.RepeatAnswered` | progs.gpl/pppd.alpha/chap.c:547-600 | a Response to a challenge already settled draws the same verdict again and changes nothing else; one not taken changes nothing |
| `ChapAnswers.RunVerdicts` | progs.gpl/pppd.alpha/chap.c:547-755 | on every run the verdicts given on a challenge are exactly as many as the Responses to it that were taken |
| `ChapAnswers.OpenMeansProven` | progs.gpl/pppd.alpha/chap.c:547-755 | on every run a peer that is let in has given a good Response to the last challenge |
| `Chap.RunTimersIff` | progs.gpl/pppd.alpha/chap.c:225-364 | challenge timer pending exactly while challenging and rechallenge timer exactly while open, all through a run, if and only if authentication is never asked for again while one of them is pending |
| `Chap.StepTimersIff` | progs.gpl/pppd.alpha/chap.c:225-364 | the one step that breaks it |
| `Chap.AskedAgainExample` | progs.gpl/pppd.alpha/chap.c:225-245 | asking again while a challenge is out leaves two challenge timers |
| `Chap.RunVerdictsIff` | progs.gpl/pppd.alpha/chap.c:547-755 | all status replies to one challenge carry the same code, if and only if no Response is judged afresh with the other outcome after the lower layer went down |
| `Chap.StepVerdictsIff` | progs.gpl/pppd.alpha/chap.c:561-583 | the one step that breaks it |
| `Chap.OverturnedExample` | progs.gpl/pppd.alpha/chap.c:547-755 | a run in which one challenge gets both verdicts |
| `Chap.Server.constructor` | progs.gpl/pppd.alpha/chap.c:175-187 | the initial state |
| `Chap.Server.GenChallenge` | progs.gpl/pppd.alpha/chap.c:1120-1175 | a new challenge under the next id, not yet sent |
| `Chap.Server.Transmit` | progs.gpl/pppd.alpha/chap.c:972-1000 | one transmission, one timer |
| `Chap.Server.StartAuth` | progs.gpl/pppd.alpha/chap.c:225-245 | the step of the reference machine |
| `Chap.Server.OnChallengeTimeout` | progs.gpl/pppd.alpha/chap.c:251-280 | the step of the reference machine |
| `Chap.Server.OnRechallenge` | progs.gpl/pppd.alpha/chap.c:301-312 | the step of the reference machine |
| `Chap.Server.OnLowerUp` | progs.gpl/pppd.alpha/chap.c:321-338 | the step of the reference machine |
| `Chap.Server.OnLowerDown` | progs.gpl/pppd.alpha/chap.c:347-364 | the step of the reference machine |
| `Chap.Server.OnProtocolReject` | progs.gpl/pppd.alpha/chap.c:371-383 | the step of the reference machine |
| `Chap.Server.OnResponse` | progs.gpl/pppd.alpha/chap.c:547-755 | the step of the reference machine |
| `Chap.Server.Handle` | progs.gpl/pppd.alpha/chap.c:225-755 | one event of any kind: the state afterwards is that of the reference step |
| `Chap.Server.Drive` | progs.gpl/pppd.alpha/chap.c:225-755 | a new unit taken through any events goes through exactly the states of the reference run; no challenge goes out more than max(1, max_transmits) times; the timers are right throughout if and only if nobody asked again while one was pending; all statuses for one challenge agree if and only if no verdict was overturned |
| `Dlist.Links.Init` | include/dlist.h:36-36 | a ring of one |
| `Dlist.Links.AddBetween` | include/dlist.h:38-44 | between two neighbours of a ring: the ring with the entry at that position, all others in order, no link outside touched |
| `Dlist.Links.Add` | include/dlist.h:56-56 | insertion at the front of a ring; nothing else is touched |
| `Dlist.Links.AddTail` | include/dlist.h:57-57 | insertion at the back |
| `Dlist.Links.Del` | include/dlist.h:58-62 | the entry is gone from its ring, the order of the others kept |
| `Dlist.Links.IsEmpty` | include/dlist.h:55-55 | true exactly of an empty ring |
| `Dlist.Links.Count` | comlib/mem_helper.c:172-179 | the walk counts exactly the entries |
| `Dlist.Links.Contains` | comlib/mem_helper.c:348-358 | the walk finds an entry exactly if it is on the list |
| `Dlist.InsertedRing` | include/dlist.h:38-44 | splicing in gives the ring with the entry at that position |
| `Dlist.RemovedRing` | include/dlist.h:45-49 | splicing out gives the ring without it |
| `MemPool.Pool.constructor` | comlib/mem_helper.c:132-145 | an empty pool in order |
| `MemPool.Pool.InitHeads` | comlib/mem_helper.c:136-140 | both list heads of a class empty |
| `MemPool.Pool.InitAll` | comlib/mem_helper.c:132-145 | every list empty, all counters zero |
| `MemPool.Pool.PutBack` | comlib/mem_helper.c:288-305 | an entry goes to the back of a list, all other lists kept |
| `MemPool.Pool.PutFront` | comlib/mem_helper.c:334-334 | an entry goes to the front of a list, all other lists kept |
| `MemPool.Pool.Lift` | comlib/mem_helper.c:331-331 | an entry leaves its list, all other lists kept |
| `MemPool.Pool.AddEntry` | comlib/mem_helper.c:288-305 | a new header inside the newest stretch, apart from all others, on the free list of its class |
| `MemPool.Pool.Carve` | comlib/mem_helper.c:296-306 | the superblock is cut into blocks that do not meet and lie inside it |
| `MemPool.Pool.Grow` | comlib/mem_helper.c:263-314 | exactly if the class grows and the system answers, a superblock more and its free list not empty, else nothing changed; everything already listed stays where it is |
| `MemPool.Pool.Claim` | comlib/mem_helper.c:284-294 | a new stretch owned, its header on the list of superblocks |
| `MemPool.Pool.Move` | comlib/mem_helper.c:329-335 | a block changes between the two lists of its class |
| `MemPool.Pool.HandOut` | comlib/mem_helper.c:327-340 | a block not in use before is in use, and only that; the high-water mark follows |
| `MemPool.Pool.TakeBlock` | comlib/mem_helper.c:317-346 | a free block is used before the system is asked; none, exactly if the list is empty and the class does not grow or the system refuses; failure changes nothing |
| `MemPool.Pool.PutAway` | comlib/mem_helper.c:360-381 | a block in use is free again; a block not in use is left alone with the whole pool unchanged |
| `MemPool.Pool.Malloc` | comlib/mem_helper.c:410-437 | a payload of at least the asked size, not in use before; all other payloads and contents unchanged; refused if and only if nothing is asked for or no class that could hold it has a free block or gets one from the system |
| `MemPool.Pool.Free` | comlib/mem_helper.c:468-477 | the payloads in use are those before without this one; a second free, or an address that is not a payload, changes nothing at all |
| `MemPool.Pool.CopyTo` | comlib/mem_helper.c:503-503 | the contents move, every other payload keeps its own |
| `MemPool.Pool.Resize` | comlib/mem_helper.c:500-506 | more room with the same contents in front; no new payload, and the old one given back all the same, exactly if no class can serve |
| `MemPool.Pool.Realloc` | comlib/mem_helper.c:479-512 | all cases of a resize request; a payload in use is lost if and only if it is too small and no class can serve |
| `MemPool.Pool.DiagnoseClass` | comlib/mem_helper.c:239-256 | complaints about one class exactly if counters and lists disagree |
| `MemPool.Pool.Diagnose` | comlib/mem_helper.c:232-258 | no complaint if and only if all counters agree with the lists and with the superblocks |
| `MemPool.Pool.ReleaseSupers` | comlib/mem_helper.c:160-167 | every superblock is taken off the list once |
| `MemPool.Pool.FreeAll` | comlib/mem_helper.c:148-170 | every superblock is returned exactly once, in order, and the pool is empty |
| `MemPool.Pool.Store` | comlib/mem_helper.c:410-437 | a client's store shows in the payload it is made to and in no other |
| `MemPool.Pool.ServeRealloc` | comlib/mem_helper.c:479-512 | what clients hold after a resize request is what the answer tells them |
| `MemPool.Pool.Serve` | comlib/mem_helper.c:410-512 | one request: what clients see afterwards is what their own record of it says |
| `MemPool.Pool.Run` | comlib/mem_helper.c:232-512 | any sequence of allocations, releases, resizes and stores: which payloads there are, their sizes and every octet in them are what the clients' own record of requests and answers says; each has at least the room asked for; all lie inside owned memory and apart; the diagnosis finds nothing |
| `MemPool.UnnamedKept` | comlib/mem_helper.c:410-512 | over any run a payload that no request names keeps its contents |
| `MemPool.NothingServes` | comlib/mem_helper.c:410-437 | if no class that could hold the request has a free block and the system answers nothing, no class serves it |
| `MemPool.LossExample` | comlib/mem_helper.c:500-506 | a pool in which asking for nine octets in place of eight loses the eight |
| `MemPool.LiveSeparate` | comlib/mem_helper.c:263-314 | a payload in use lies inside an owned stretch and meets no other |
| `MemPool.PayloadsApart` | comlib/mem_helper.c:263-314 | payloads of different blocks do not meet |
| `MemPool.LaidMore` | comlib/mem_helper.c:296-306 | a block carved right after the others keeps everything apart |
| `MemPool.CopyView` | comlib/mem_helper.c:503-503 | copying into one payload leaves the contents of every other as they were |
| `MemPool.AllAgree` | comlib/mem_helper.c:232-258 | the checks of the diagnosis, class by class, are the invariant |
| `Fcs16.PppFcs16` | progs.gpl/pppd.alpha/ppp_fcs.c:81-91 | the table-driven loop computes the bit-by-bit sum with the reversed polynomial for every message and starting value |
| `Fcs16.EntryIsRemainder` | progs.gpl/pppd.alpha/ppp_fcs.c:35-71 | every one of the 256 table entries is the remainder of its index |
| `Fcs16.TableStepTakes` | progs.gpl/pppd.alpha/ppp_fcs.c:87-88 | one table step is eight bit steps |
| `Fcs16.ComplementIsGood` | progs.gpl/pppd.alpha/ppp_fcs.c:97-112 | from any register, the complement, low octet first, leads to the good value |
| `Fcs16.GoodIff` | progs.gpl/pppd.alpha/ppp_fcs.c:97-112 | a frame checks good if and only if its last two octets are the complement of the sum of the rest |
| `Fcs16.AdjacentOctetsCaught` | progs.gpl/pppd.alpha/ppp_fcs.c:81-91 | two messages differing only in two adjacent octets never share a sum |
| `Fcs16.BurstCaught` | progs.gpl/pppd.alpha/ppp_fcs.c:81-91 | nor do two messages whose bits differ only within sixteen consecutive ones, wherever these lie |
| `Fcs16.SumIsSumOfBits` | progs.gpl/pppd.alpha/ppp_fcs.c:81-91 | the sum of a message is the sum of its bits in line order |
| `Fcs16.TwoOctetsShow` | progs.gpl/pppd.alpha/ppp_fcs.c:81-91 | from one register two octets lead to a value in only one way |
| `Md5.SameDigest` | comlib/md5.c:126-195 | any message, cut one way for one driver and another way for the other: both digests equal the compression function folded over the padded message |
| `Md5.BlockDriver.constructor` | comlib/md5.c:109-118 | nothing taken in |
| `Md5.BlockDriver.Copy` | comlib/md5.c:331-335 | octets into the buffer |
| `Md5.BlockDriver.AddCount` | comlib/md5.c:137-142 | the two words hold 8 times the octet count modulo 2^64 |
| `Md5.BlockDriver.Blocks` | comlib/md5.c:151-152 | all whole blocks of a chunk compressed, with the loop test in 32 bits |
| `Md5.BlockDriver.Compress` | comlib/md5.c:144-158 | every block that the chunk completes compressed, what is left told |
| `Md5.BlockDriver.FirstBlock` | comlib/md5.c:147-150 | the buffered block completed and compressed |
| `Md5.BlockDriver.Update` | comlib/md5.c:126-162 | the context stands for the message with the chunk appended |
| `Md5.BlockDriver.Final` | comlib/md5.c:169-195 | the digest of the whole message |
| `Md5.OctetDriver.constructor` | progs.gpl/pppd.alpha/md5.c:105-116 | nothing taken in |
| `Md5.OctetDriver.AddCount` | progs.gpl/pppd.alpha/md5.c:134-138 | the two words hold 8 times the octet count modulo 2^64 |
| `Md5.OctetDriver.Decode` | progs.gpl/pppd.alpha/md5.c:146-150 | the words of the buffer, least significant octet first |
| `Md5.OctetDriver.Octet` | progs.gpl/pppd.alpha/md5.c:140-154 | one octet taken in, a full buffer compressed |
| `Md5.OctetDriver.Update` | progs.gpl/pppd.alpha/md5.c:122-155 | the context stands for the message with the chunk appended |
| `Md5.OctetDriver.Final` | progs.gpl/pppd.alpha/md5.c:160-199 | the digest of the whole message |
| `Md5.BlockDigest` | comlib/md5.c:109-195 | however a message is cut into chunks, the digest is that of the padded message |
| `Md5.OctetDigest` | progs.gpl/pppd.alpha/md5.c:105-199 | however a message is cut into chunks, the digest is that of the padded message |
| `Md5.LastBlock` | progs.gpl/pppd.alpha/md5.c:169-186 | the last block with the counts put in as words is the last block of the padded message |
| `Md5.LoopEndsIff` | comlib/md5.c:147-152 | for a chunk that completes a block the 32-bit loop test fails at some point, if and only if the chunk and the octets buffered are together shorter than 2^32 |
| `Md5.EndlessExample` | comlib/md5.c:147-152 | one octet buffered and a chunk of 2^32 - 1: the test holds in every round |
| `Md5.CountAdds` | comlib/md5.c:137-142 | adding with carry on two words is adding modulo 2^64 |
| `Md5.CountGivesIndex` | comlib/md5.c:134-135 | the position in the buffer can be read off the bit count |
| `EndpointText.ReadPrintIff` | progs.gpl/pppd.alpha/multilink.c:300-414 | reading back a printed discriminator gives it again, for every class and length up to twenty, if and only if it is not an IP or MAC address of a length such addresses do not have, nor a MAC address whose text names an interface that has another |
| `EndpointText.ToText` | progs.gpl/pppd.alpha/multilink.c:300-339 | the text printed, in each of its forms, shorter than the room given |
| `EndpointText.PrintFits` | progs.gpl/pppd.alpha/multilink.c:300-339 | every discriminator's text is shorter than the room of 68 characters |
| `EndpointText.TextIs` | progs.gpl/pppd.alpha/multilink.c:300-339 | octet by octet what the text of any discriminator holds and which separators stand where |
| `EndpointText.PrintExamples` | progs.gpl/pppd.alpha/multilink.c:300-339 | the names of the classes in the text |
| `EndpointText.PutOctets` | progs.gpl/pppd.alpha/multilink.c:330-337 | the loop over the octets with its separators |
| `EndpointText.FromText` | progs.gpl/pppd.alpha/multilink.c:351-414 | the discriminator read, or none, for every string |
| `EndpointText.ParseClass` | progs.gpl/pppd.alpha/multilink.c:358-371 | the class by name or number |
| `EndpointText.FromHex` | progs.gpl/pppd.alpha/multilink.c:394-410 | the loop over the digits, for every string |
| `EndpointText.TakeOctet` | progs.gpl/pppd.alpha/multilink.c:398-408 | one octet off the cursor |
| `EndpointText.ScanHex` | progs.gpl/pppd.alpha/multilink.c:398-400 | the end of a stretch of digits |
| `EndpointText.OctetsRead` | progs.gpl/pppd.alpha/multilink.c:394-410 | octets printed, grouped or not, are read back |
| `EndpointText.ParseDotted` | progs.gpl/pppd.alpha/ipcp.c:502-528 | an address read octet by octet, or in plain form |
| `EndpointText.DottedRead` | progs.gpl/pppd.alpha/ipcp.c:502-528 | a dotted address is read back |
| `EndpointText.ReadDec` | progs.gpl/pppd.alpha/ipcp.c:511-512 | a decimal octet is read back, with the base given or told by the prefix |
| `EndpointText.HexValOfChar` | progs.gpl/pppd.alpha/multilink.c:341-348 | the value of a printed digit is the digit |
| `Stream.XStream.constructor` | comlib/xstream.c:113-130 | everything pending, nothing put back |
| `Stream.XStream.Getc` | comlib/xstream.c:147-188 | the next character, and then there is room to put it back |
| `Stream.XStream.Ungetc` | comlib/xstream.c:190-205 | the character is pending again in front, unless it is the end mark or the stack is full |
| `Stream.XStream.Ungets` | comlib/xstream.c:207-220 | the whole string is pending again in front, if and only if there is room and no character looks like the end mark |
| `StrObj.Str.constructor` | comlib/strobj.c:166-175 | an empty string |
| `StrObj.Str.IncSpace` | comlib/strobj.c:189-207 | more room, same text |
| `StrObj.Str.AddChar` | comlib/strobj.c:210-221 | the text with the character appended, terminated |
| `StrObj.Str.AddString` | comlib/strobj.c:224-240 | the text with the string appended, terminated |
| `StrObj.Str.Mark` | comlib/strobj.c:653-670 | only the flag changes |
| `StrObj.ReadEsc` | comlib/strobj.c:609-680 | token, return value, what is left unread and the flag, for every stream and every delimiter set |
| `StrObj.PlainIs` | comlib/strobj.c:609-680 | outside quotation marks the token is the longest front of the input without white space, delimiter, quotation mark or NUL, and what is returned, left and flagged after it |
| `StrObj.EscapesMean` | comlib/strobj.c:634-646 | what an escaped character stands for |
| `StrObj.JavascriptRoundTrip` | comlib/strobj.c:609-768 | for every NUL-free string and either quotation mark, reading the quoted escaped string gives it back, returns the mark and leaves exactly the rest unread |
| `StrObj.ShellRoundTripIff` | comlib/strobj.c:771-776 | with the shell escape that holds if and only if the mark is the double quote or the string has no single quote |
| `StrObj.TokenRoundTripIff` | comlib/strobj.c:609-747 | for any escape that escapes itself: if and only if the mark is escaped or does not occur |
| `StrObj.EscapeInto` | comlib/strobj.c:740-747 | the loop computes the escaped string |
| `Entities.UnescapeEscape` | comlib/strobj.c:785-860 | undoing the XML or HTML escape gives every string back |
| `Entities.EntityTexts` | comlib/strobj.c:785-806 | the text each special character is escaped to, and no other is |
| `Entities.SpaceText` | comlib/strobj.c:807-860 | the non-breaking space, in HTML only |
| `Entities.FrontOfEntity` | comlib/strobj.c:807-860 | an escaped character is recognised whatever follows it |
| `Entities.NothingBare` | comlib/strobj.c:785-845 | no bracket or double quote is left bare, nor an apostrophe in XML |
| `Entities.EscapeText` | comlib/strobj.c:785-845 | the loop computes the escaped text |
| `Entities.UnescapeText` | comlib/strobj.c:807-860 | the loop computes the unescaped text |
| `Base64.RoundTrip` | comlib/base64.c:13-132 | decoding what was encoded gives every string back, whatever octet followed it in memory |
| `Base64.RoundTripSprinkled` | comlib/base64.c:13-132 | and whatever characters outside the alphabet were put in, anywhere, any number of times |
| `Base64.CanonicalIff` | comlib/base64.c:13-19 | the encoding is that of section 4 of RFC 4648 if and only if the octet past a short last block has zeros in the bits read |
| `Base64.PastExample` | comlib/base64.c:13-19 | one octet whose encoding is not the standard one |
| `Base64.EncodeLength` | comlib/base64.c:30-64 | four characters for each started group of three octets |
| `Base64.EncodeInto` | comlib/base64.c:30-64 | the loop computes the encoding within the buffer it allocates |
| `Base64.EncodeBlock` | comlib/base64.c:13-19 | four characters of one block, the second octet read even past the end |
| `Base64.DecodeInto` | comlib/base64.c:83-132 | the loop computes: drop what is outside the alphabet, group by four, k-1 octets for a group of k, whatever octet follows the input, within the buffer it allocates |
| `Base64.DecodeGroup` | comlib/base64.c:101-128 | one group read and written |
| `Base64.ReadGroup` | comlib/base64.c:103-123 | up to four digits collected |
| `Base64.NextLetter` | comlib/base64.c:105-113 | the next letter of the alphabet, looking as far as the octet past the input |
| `Base64.DecodeBlock` | comlib/base64.c:67-72 | three octets, of which the meant ones are right |
| `Base64.CodeOfChar` | comlib/base64.c:9-10 | the decoding table inverts the alphabet and gives nothing else a code |

## Left out

- CCP, IPXCP, EAP, CBCP, ECP, the CHAP client side: the same patterns again, or code that is not here.
- `ipcp_nakci` and `ipcp_rejci`: parameters of the IPCP model, which may be any functions.
- The protocol-specific retransmit callback and LCP's delayed start of negotiation.
- Callbacks other than `up` that re-enter the automaton; `up` may close it, which is modelled.
- Echo requests sent by LCP itself, link quality, and all scripts, logging and kernel calls made on coming up.
- The compression rounds of MD5, the digests of Microsoft CHAP and the choice of secrets: parameters.
- The second return value of the token reader, which says whether it met a quotation mark.
- `mh_strdup`, `mh_calloc`, `mh_dump` and file tracking of the pool: thin wrappers and output.
- File and descriptor streams, and the thin wrappers of the string object.
- Allocation failure inside the string object.
- Md5.BlockDriver.Update: stated for the chunks on which the source's loop ends, as `Md5.LoopEndsIff` says.
- Md5.OctetDriver.Update: stated for chunks shorter than 2^32 octets, the range of the length argument.
- LcpRequest.AnswerInPlace: the buffer has room for the answer, which the source writes without looking; counter-offers
  are gathered beside it, where the source has an area of a fixed size for them.
- IpcpRequest.AnswerInPlace: the buffer has room for the answer, one option more than the request where the wish
  for an address is appended; the source assumes that in a comment.
- MemPool.Pool.Free: an address that is not ours is one with no header in front of it; foreign memory that
  happens to look like a header is not modelled.
