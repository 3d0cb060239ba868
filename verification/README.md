# A verified model of the nvkvm-pv display broker

The broker shows a virtual machine's frames in a host window and passes the host's keyboard, pointer
and clipboard on to the machine. It trusts neither the client nor the guest behind it, and it must
never leave the user's keyboard captured. This project models its policy core, the outbound queue, the
command stream, the clipboard in both directions, the buffer checks with the two display backends that
rely on them, and the planner that spreads driver versions over hosts.

`dafny verify dfyconfig.toml` checks everything; there is nothing to run.

The broker's state is specified as a machine on values and implemented as classes that update the same
state in place; each method is proved equal to its step of the machine, and what the broker promises is
proved about every run of the machine.

| file | what it holds |
|---|---|
| `Protocol.dfy` | the 24-byte event packets, and what a client reads out of a byte stream |
| `TxQueue.dfy`, `Saturation.dfy` | the coalescing pass on packet sequences, what a client can observe of it, and when it is lossless |
| `TxRing.dfy` | partial writes, and the 512-slot ring in place (`Ring`) |
| `SinkModel.dfy` | every entry point of the policy core as a step, and runs of steps |
| `SinkSafety.dfy` | the invariant every step keeps |
| `SinkTheorems.dfy` | stream fidelity, client view, input gating, grab safety |
| `SinkScript.dfy`, `SinkStream.dfy` | what every event has the broker say, packet by packet, and the stream as exactly that |
| `SinkInput.dfy`, `SinkState.dfy` | what input reaches the client and how a paste is pressed; what every event leaves behind |
| `SinkLoss.dfy` | when a client is given up for a full ring, inside whatever operation |
| `SinkPaste.dfy`, `SinkAgent.dfy` | the paste protocol, whose connection a text belongs to, and the agent behind a held key |
| `SinkConsent.dfy`, `SinkText.dfy`, `BrokerConsent.dfy` | a held paste key, a grab and every host text in the stream go back to the user, and to no client |
| `PolicyCore.dfy` | the policy core in place (`Core`) |
| `Commands.dfy`, `CommandLayout.dfy` | the 40-byte commands and what each does to the broker |
| `Receive.dfy` | reads, framing and wakeups |
| `BrokerSafety.dfy` | what the whole broker keeps, over local events and client reads |
| `BrokerRefusal.dfy`, `BrokerAnswers.dfy` | which commands and reads end a connection, and what the others get done |
| `BrokerCore.dfy` | the inbound half in place, with the drain loop (`Host`) |
| `ClipIn.dfy`, `Utf8.dfy`, `RateLimit.dfy` | guest-to-host text, its validator, the one-second windows |
| `Formats.dfy`, `Descriptor.dfy` | the advertised formats, and the bounds of a buffer |
| `WlImport.dfy`, `AspectFit.dfy`, `X11.dfy` | the two backends: import cache and probes, scaling, row packing and work |
| `SweepPlan.dfy` | the sweep planner's allocation loop |

What the system does is followed where its own comments say otherwise:

- A window is covered without bars not only when its aspect equals the buffer's: the one-pixel snap
  also covers windows slightly off. `AspectFit.CoversIff` has the exact condition and
  `AspectFit.CoveredWithoutExactRatio` an instance.
- Accumulating relative motion is called exactly equivalent to sending it separately; it is not once a
  sum saturates an int32 (`Saturation.MotionLost`). `Saturation.LosslessIffExact` has the exact
  condition on the deltas of a stretch, and `SinkTheorems.MotionIsPreserved` holds under it over every run.
- Pictures are pushed in bands said to fit one request; a single row may be too long for the server's
  limit and is then sent all the same (`X11.RowTooLong`). `X11.BandFitsIff` has the exact condition.
- A yes to QUERY_FORMAT is called binding. It binds the descriptor checks (`Descriptor.QueryIsBinding`) but not
  the Wayland display, which may advertise a pair and then refuse it (`WlImport.QueryNotBinding`).
  `WlImport.AttachInvalidIff` says exactly when ATTACH turns a pair down after all.
- A refused pair is said to be reported to the client. One slot holds the pending refusal, so a second one before
  the next COMMIT replaces it (`WlImport.FirstRefusalLost`). `WlImport.RefusalsToldIff` has the exact condition.
- Hotkeys do not need focus, so the sink alone does not make a grab imply focus:
  `SinkTheorems.GrabWithoutFocusIff` says exactly when a step breaks it, `SinkPaste.GrabWithoutFocusHappens`
  is such a run, and `SinkTheorems.GrabImpliesFocus` holds under the assumption the backends meet.
- A client may withdraw its clipboard agent while a paste key is held (`SinkPaste.AgentMayBeWithdrawn`), so
  a held key implies only that the agent was announced at some time. `SinkAgent.AgentWithdrawnIff` says
  exactly which step does it, and `SinkAgent.HeldKeyHasAgent` that nothing else can.

The world enters as parameters: the clock, the outcome of every write and read, what was measured on a
file descriptor, the display's answers, and what a shared mapping holds when it is read. History that
the C code does not keep is part of the specification state, and ghost in the classes: packets emitted,
bytes accepted by the socket, bytes and commands received, file descriptors received and closed, texts
handed over, buffers offered, sizes asked of the window, probes asked and answered, refusals passed on.

## Model

| member | source | states |
|---|---|---|
| `SinkTheorems.StreamRefinesFifo` | src/broker/nvkvm_broker.c:218-338 | after every history: the bytes the client's socket has accepted, through every partial write and every coalescing pass between two of them, are the delivered packets whole and the first tx_partial bytes of the packet at the head; the client reads the delivered packets back; and delivered plus queued packets, less motion and FRAME, are the emitted ones, each once and in order |
| `SinkSafety.RelievedWire` | src/broker/nvkvm_broker.c:231-236 | a coalescing pass leaves a half-sent packet its place and its bytes |
| `SinkSafety.WriteFaithful` | src/broker/nvkvm_broker.c:315-338 | what a flush gets accepted continues the accepted bytes exactly |
| `SinkTheorems.MotionIsPreserved` | src/broker/nvkvm_broker.c:218-276 | after every history, in every stretch between GRAB/FOCUS packets: the last absolute position is that of the uncoalesced stream, and so is the summed relative motion along each axis on which no run of consecutive deltas exceeds an int32 |
| `Saturation.LosslessIffExact` | src/broker/nvkvm_broker.c:246-253 | that condition is exact, along either axis: however a stretch of relative motion is cut up for coalescing none of it is lost, if and only if no run of consecutive deltas exceeds an int32 |
| `Saturation.MotionLost` | src/broker/nvkvm_broker.c:246-253 | two concrete pairs of moves that lose a step when merged, one along each axis |
| `Saturation.ExactIffRunsFit` | src/broker/nvkvm_broker.c:246-253 | the running climb and fall a stretch is judged by are those of its runs of consecutive deltas |
| `Saturation.RunCoalesces` | src/broker/nvkvm_broker.c:246-253 | a run of relative motion becomes one packet that carries the saturated sum along each axis |
| `SinkLoss.LostOnlyWhenStuck` | src/broker/nvkvm_broker.c:286-313 | after every history, wherever inside a step the ring is found full, the releases of a grab or focus loss and the paste chord included: the client is lost only if the queued packets that are neither motion nor FRAME, the keys to release and six more come to 255 |
| `SinkLoss.StepSpends` | src/broker/nvkvm_broker.c:480-900 | the same of one step from any state that meets the invariant |
| `SinkLoss.ReleaseFromSpends` | src/broker/nvkvm_broker.c:480-493 | the releases cost one packet for each key that is down, or lose the client for want of that room |
| `SinkTheorems.LongQueuesAreCoalesced` | src/broker/nvkvm_broker.c:286-313 | what an emission finds in the ring is at most 128 packets, untouched, or at most two for every packet that is neither motion nor FRAME, and three |
| `SinkTheorems.StuckWhenLost` | src/broker/nvkvm_broker.c:286-313 | an emission gives the client up only when at least 254 queued packets are neither motion nor FRAME |
| `SinkTheorems.MotionNeverDisconnects` | src/broker/nvkvm_broker.c:650-668 | below that many, motion, pacing and flushing alone, however long, never drop the client |
| `SinkTheorems.ClientViewAgrees` | src/broker/nvkvm_broker.c:480-703 | after every history with a client: the keys the stream leaves down are the broker's key_down, focus and grab as the stream tells them are the broker's, and without focus no key is down |
| `SinkStream.StreamIsTheScript` | src/broker/nvkvm_broker.c:144-900 | after every history with a client, the packets emitted are the greeting and then, event by event, exactly what the event has the broker say: kind, flags, arguments and order, numbered from zero without a gap |
| `SinkStream.StepOutcome` | src/broker/nvkvm_broker.c:286-900 | every event turns the connection into exactly what the script makes of it: greeted, told, flushed, queued, ended; an emission ends it if and only if the coalesced ring has no room |
| `SinkScript.StepSpeaks` | src/broker/nvkvm_broker.c:480-834 | of those, input, focus, grab, reports and completions: the connection is the one before with exactly the lines said, or lost for want of room for them |
| `SinkInput.KeyReachesClient` | src/broker/nvkvm_broker.c:549-632 | a key that is neither the broker's own nor a paste key reaches the client, as one KEY packet with its code and direction, exactly when the window has focus, the press was not consumed and it is an edge; otherwise the client hears nothing |
| `SinkInput.ButtonReachesClient` | src/broker/nvkvm_broker.c:634-648 | so does a button, exactly while the pointer is the client's |
| `SinkInput.AbsReachesClient` | src/broker/nvkvm_broker.c:650-657 | a position reaches the client as reported, exactly with focus and pointer and without a grab |
| `SinkInput.RelReachesClient` | src/broker/nvkvm_broker.c:659-668 | a delta reaches the client as reported, exactly with focus and a grab and when it is not zero |
| `SinkInput.WheelReachesClient` | src/broker/nvkvm_broker.c:670-676 | so does the wheel, exactly while the pointer is the client's |
| `SinkState.StepSettles` | src/broker/nvkvm_broker.c:447-900 | every event leaves window, latch, consumed keys, keys down and paste state as a field-by-field table says; a client lost on the way takes grab, latch, consumed keys and paste state with it |
| `SinkState.WindowAsReported` | src/broker/nvkvm_broker.c:678-736 | after every history, focus, pointer and size are those the display last reported, whoever has come and gone |
| `SinkTheorems.InputIsGated` | src/broker/nvkvm_broker.c:549-703 | at every position of the stream, coalesced or not: input only under FOCUS 1, REL only under GRAB 1, ABS only under GRAB 0 |
| `SinkTheorems.GrabNeverOutlivesClient` | src/broker/nvkvm_broker.c:495-547 | after every history, also one that loses the client inside the release of its keys: the backend's grab flag is the sink's, and a grab implies a client and observable focus loss |
| `SinkTheorems.GrabWithoutFocusIff` | src/broker/nvkvm_broker.c:568-592 | one step leads to a grab without focus exactly when it is the unfocused grab hotkey, accepted, on a connection that survives the release of its keys |
| `SinkTheorems.GrabImpliesFocus` | src/broker/nvkvm_broker.c:678-703 | if backends deliver keys only while focused, a grab implies focus throughout |
| `SinkTheorems.FocusLossDropsGrab` | src/broker/nvkvm_broker.c:678-703 | losing focus leaves no grab |
| `SinkPaste.GrabWithoutFocusHappens` | src/broker/nvkvm_broker.c:568-592 | a concrete run that ends grabbed without focus, so the assumption above is needed |
| `SinkPaste.RejoinInverts` | src/broker/nvkvm_broker.c:874-894 | joining the meaningful bytes of a text's chunks gives the text back; the last chunk, and no other, is marked LAST |
| `SinkInput.PasteArrivesWhole` | src/broker/nvkvm_broker.c:792-897 | an accepted send followed by the completion: the connection survives, chunks that join to the text stand contiguously right before a press of the paste key with the modifiers it takes, and every key is as it was but the paste key, which is up |
| `SinkInput.PasteIsPressed` | src/broker/nvkvm_broker.c:792-834 | a completion for the held key on a focused window: in front of the client's eyes the key goes down while a Ctrl and a Shift key are down if the paste key takes them, even if the user has let go of them, and with no modifier neither the key nor the user had; six free slots suffice |
| `SinkInput.PasteIsPassedOn` | src/broker/nvkvm_broker.c:982-1051 | the same at once for a paste key no text will come for: another mode, no agent, nothing to paste |
| `SinkPaste.ChordBalanced` | src/broker/nvkvm_broker.c:816-834 | the replayed chord undoes itself but for the paste key, and fits the six reserved slots |
| `SinkPaste.HeldKeyIsThisConnections` | src/broker/nvkvm_broker.c:594-616 | after every history, a held paste key implies consent mode, a connected client that announced an agent, and its own generation |
| `SinkStream.TakenIffFits` | src/broker/nvkvm_broker.c:844-872 | a text is accepted exactly when it is for the key held on this connection, within the cap, and fits the ring with six slots to spare |
| `SinkText.TextGoesToItsOwner` | src/broker/nvkvm_broker.c:836-897 | after every history, every clipboard packet the client has or will receive is a chunk of a text accepted on that same connection, in consent mode, while a paste key was held that the user of that connection had pressed and that had been held ever since |
| `SinkText.TextIsWhatWasSent` | src/broker/nvkvm_broker.c:836-897 | after every history, the clipboard packets the client has or will receive are the chunks of the texts accepted on its connection, all of them, in order: a refused text queues nothing, and nothing else queues text |
| `SinkText.StepText` | src/broker/nvkvm_broker.c:144-900 | one step leaves a connection with the text it had and the chunks of a text it accepted, if it did; a new connection has none |
| `SinkText.OtherText` | src/broker/nvkvm_broker.c:144-900 | no step but a text handed over, and no command of a client, adds to the text of a connection |
| `SinkConsent.AcceptedWasAskedFor` | src/broker/nvkvm_broker.c:844-862 | a text is accepted only in consent mode, under the generation of the connection that holds the paste key, and only if the history has the user's press of that key: focused, on that very connection, and held ever since |
| `SinkConsent.HeldKeyWasPressed` | src/broker/nvkvm_broker.c:594-632 | after every history, a held paste key goes back to a press of it that completed a configured trigger, focused and in consent mode, on the same connection; it has been held at every moment since |
| `SinkConsent.HeldIffAsked` | src/broker/nvkvm_broker.c:594-632 | one step holds a new key exactly when it is such a press, and otherwise the held key stays or is let go |
| `SinkConsent.GrabWasAskedFor` | src/broker/nvkvm_broker.c:568-592 | after every history, a grab goes back to the user's granted hotkey on the same connection, and has been held at every moment since |
| `SinkConsent.GrabOnlyAsked` | src/broker/nvkvm_broker.c:495-592 | no step takes a grab but the hotkey, pressed with ctrl and alt latched, on a connection, where focus loss can be seen |
| `BrokerConsent.TextIsTheUsers` | src/broker/nvkvm_broker.c:2003-2134 | after every interleaving of local events and client reads, every clipboard packet a client has or will receive is a chunk of a text handed over for its connection while its own user's paste key was held |
| `BrokerConsent.HeldKeyIsTheUsers` | src/broker/nvkvm_broker.c:2003-2134 | after every interleaving of local events and client reads, a held paste key is one the user pressed, held on the same connection at every moment since: no bytes of a client hold one |
| `BrokerConsent.GrabIsTheUsers` | src/broker/nvkvm_broker.c:2003-2134 | after every interleaving, a grab is one the user took on the same connection and has kept at every moment since: no bytes of a client take one |
| `BrokerConsent.ReadAsksNothing` | src/broker/nvkvm_broker.c:2022-2134 | one read, whatever it brings, holds no new key, takes no grab and queues no text |
| `SinkPaste.GenerationsNeverReturn` | src/broker/nvkvm_broker.c:447-478 | once a connection has ended, no later state carries its generation |
| `SinkPaste.StaleCompletionIgnored` | src/broker/nvkvm_broker.c:792-860 | a completion or a text for a connection that has ended changes nothing, whoever is connected by then |
| `SinkAgent.AgentWithdrawnIff` | src/broker/nvkvm_broker.c:1822-1845 | a step leaves a key held without an agent exactly when it is the client, connected and with its key held, reporting that it has none |
| `SinkAgent.HeldKeyHasAgent` | src/broker/nvkvm_broker.c:982-1051 | over runs in which no client does that, a held key always has its agent |
| `SinkPaste.AgentMayBeWithdrawn` | src/broker/nvkvm_broker.c:1822-1845 | a concrete run in which it happens |
| `SinkSafety.StepInv` | src/broker/nvkvm_broker.c:144-900 | every step of the policy core keeps the joint invariant: faithful stream, agreed key and mode views, safe grab, safe held key |
| `SinkSafety.SetGrabInv` | src/broker/nvkvm_broker.c:495-547 | taking or dropping the grab keeps it, the client being lost half way included |
| `SinkSafety.OnFocusInv` | src/broker/nvkvm_broker.c:678-703 | so does gaining or losing focus |
| `SinkSafety.OnKeyInv` | src/broker/nvkvm_broker.c:549-632 | so does a key: hotkey, paste key, consumed or plain |
| `SinkSafety.ClipFinishInv` | src/broker/nvkvm_broker.c:792-834 | so does the replay of the held chord |
| `SinkSafety.SendClipboardInv` | src/broker/nvkvm_broker.c:844-897 | so does a text queued behind the coalescer's back |
| `SinkSafety.AttachInv` | src/broker/nvkvm_broker.c:384-445 | so does a new connection, whose handshake already tells the client the truth |
| `SinkSafety.RunInv` | src/broker/nvkvm_broker.c:3112-3260 | so does any sequence of steps |
| `BrokerSafety.HistoryInv` | src/broker/nvkvm_broker.c:2022-2134 | every interleaving of local events and client reads keeps the policy invariant, the fd ledger, the framing, the command rate, the clipboard history and the bounds of offered buffers |
| `BrokerSafety.TurnsInv` | src/broker/nvkvm_broker.c:2022-2134 | one wakeup keeps all of that |
| `BrokerSafety.FdsAccountedFor` | src/broker/nvkvm_broker.c:2066-2129 | after every history each fd a client sent is closed exactly once, but for at most one: that of a command partly received on a live connection |
| `BrokerSafety.CommandRateBounded` | src/broker/nvkvm_broker.c:1993-2002 | after every history with a monotone clock, no 1000 ms of the connection hold more than 2*20000 commands |
| `BrokerSafety.HostClipboardHonest` | src/broker/nvkvm_broker.c:1656-1820 | after every history each text handed to the host is one complete transaction of that connection, in full, valid UTF-8 within the cap; none in mode off |
| `BrokerSafety.OfferedBuffersInside` | src/broker/nvkvm_broker.c:1555-1582 | after every history, every pixel byte of every buffer a backend was offered lies inside the file, at an int32 address, and no dma-buf among them is of a pair the display has not advertised |
| `BrokerAnswers.RecordIsHandled` | src/broker/nvkvm_broker.c:2030-2129 | a read that completes a record, with no fd too many and within the rate, hands on exactly those 40 bytes and the one fd that came with them, and leaves nothing of either behind |
| `BrokerAnswers.QueryIsAnswered` | src/broker/nvkvm_broker.c:1585-1628 | a well-formed QUERY_FORMAT is answered with one FORMAT packet that names the pair and says 1 exactly if the pair, or for AR24 and AB24 its opaque twin, is advertised |
| `BrokerAnswers.YesMeansAttachable` | src/broker/nvkvm_broker.c:1174-1214 | that answer and the descriptor checks agree: 1 exactly if some buffer of the pair would pass them |
| `BrokerAnswers.AttachIsOffered` | src/broker/nvkvm_broker.c:1541-1583 | the backend is offered the buffer of an ATTACH, once and as accepted, exactly when the display takes dma-bufs and the checks pass |
| `BrokerAnswers.CapsAreRemembered` | src/broker/nvkvm_broker.c:1822-1845 | the capability bits a client reports are the ones remembered |
| `BrokerAnswers.CommitIsReported` | src/broker/nvkvm_broker.c:1630-1654 | a COMMIT tells the client the backend's reports, all of them in order, and nothing else |
| `BrokerAnswers.PieceIsTaken` | src/broker/nvkvm_broker.c:1656-1820 | a clipboard piece that fits is taken as it came, and counts as one too many exactly when its second already held the limit |
| `BrokerAnswers.PiecesAreLimited` | src/broker/nvkvm_broker.c:903-918 | the same of every piece after every history |
| `CommandLayout.RequestReadsBack` | src/common/nvkvm_broker_proto.h:359-370 | the broker reads back the request a client wrote into a record, field by field |
| `CommandLayout.PieceReadsBack` | src/common/nvkvm_broker_proto.h:374-381 | so with a clipboard piece |
| `BrokerRefusal.RefusedIff` | src/broker/nvkvm_broker.c:1509-1909 | a command ends the connection exactly when it is malformed, a clipboard piece that fits no transaction, a query whose answer or a COMMIT whose reports the coalesced ring has no room for |
| `BrokerRefusal.ReadEndsIff` | src/broker/nvkvm_broker.c:2030-2129 | a read ends the connection exactly when it is an end or an error, brings more than one fd for the command or truncated ancillary data, or completes a command that is one too many for its second or ends the connection by itself |
| `BrokerRefusal.ReportsTakenIff` | src/broker/nvkvm_broker.c:286-313 | a frame's reports leave the client connected exactly when the ring takes all of them, coalescing as it goes, and then they are all in its stream |
| `BrokerRefusal.CommitAffordable` | src/broker/nvkvm_broker.c:286-313 | a well-formed COMMIT keeps the connection while the packets queued that are neither motion nor FRAME, and its reports, come to less than 255 |
| `BrokerSafety.HandleMoves` | src/broker/nvkvm_broker.c:1509-1909 | a command moves the policy core only by that core's own steps, and of those only by the ones a client can cause |
| `Commands.HandleTakesOwnership` | src/broker/nvkvm_broker.c:1509-1909 | on every path of a command its fd is closed exactly once, and framing goes on untouched or the connection is over |
| `Commands.RefusalOwned` | src/broker/nvkvm_broker.c:1167-1184 | a violation closes the fd first and always ends the connection |
| `Receive.SplitRead` | src/broker/nvkvm_broker.c:2030-2107 | one read, or the same bytes in two: the same state |
| `Receive.SplittingIsInvisible` | src/broker/nvkvm_broker.c:2022-2134 | however the kernel cuts the stream into reads, the broker ends where a byte-at-a-time machine ends |
| `Receive.StreamIsItsCommands` | src/broker/nvkvm_broker.c:2108-2129 | a stream of commands is executed as its consecutive 40-byte records, each with its own fd wherever in the record that arrived, until one ends the connection |
| `Receive.NextTakesFront` | src/broker/nvkvm_broker.c:2034-2064 | a read takes the front of the stream and leaves the rest |
| `BrokerCore.Host.Readable` | src/broker/nvkvm_broker.c:2022-2134 | one wakeup is a legal series of turns and keeps the whole broker's invariant; at most 64 commands, a bounded number of reads whatever is queued, at most 4 waits for the display, less than 64 MiB plus one largest frame of work; what was not read is still queued, in order |
| `BrokerCore.Host.Serve` | src/broker/nvkvm_broker.c:480-1092 | any event of the broker's own side, in place: the specified step, the client's half reset if it ended the connection, and the whole broker's invariant kept |
| `BrokerSafety.StartInv` | src/broker/nvkvm_broker.c:129-136 | a broker just started keeps that invariant |
| `BrokerCore.Host.DrainAll` | src/broker/nvkvm_broker.c:2030-2134 | the loop: every state follows from the one before it by one turn, within the budgets |
| `BrokerCore.Host.TakeTurn` | src/broker/nvkvm_broker.c:2030-2129 | one recvmsg in place is one turn of the specification; it is charged only when it completes a command |
| `BrokerCore.Host.TakeRecord` | src/broker/nvkvm_broker.c:2112-2129 | a full record leaves the buffer with its fd, and is acted on unless the client is flooding |
| `BrokerCore.Host.BankAll` | src/broker/nvkvm_broker.c:2074-2106 | the first fd is banked, every other one closed |
| `BrokerCore.Host.Store` | src/broker/nvkvm_broker.c:2034-2051 | received bytes go behind those already buffered, never past the record |
| `BrokerCore.Host.Handle` | src/broker/nvkvm_broker.c:1509-1909 | the in-place dispatch is the specified one, and costs at most one largest frame |
| `BrokerCore.Host.AttachCase` | src/broker/nvkvm_broker.c:1541-1583 | ATTACH in place, with every refusal; an accepted buffer the backend takes is what the next COMMIT shows |
| `BrokerCore.Host.QueryCase` | src/broker/nvkvm_broker.c:1585-1629 | QUERY_FORMAT answers from the resolver ATTACH uses |
| `BrokerCore.Host.CommitCase` | src/broker/nvkvm_broker.c:1630-1654 | COMMIT in place: the staged frame is shown and what the client hears are that frame's reports |
| `BrokerCore.Host.ClipboardCase` | src/broker/nvkvm_broker.c:1656-1723 | CLIPBOARD: structure, then framing, then policy |
| `BrokerCore.Host.TakeIn` | src/broker/nvkvm_broker.c:1722-1820 | one clipboard piece: the told-off note, the reassembly, and at most one text for the host |
| `BrokerCore.Host.CapsCase` | src/broker/nvkvm_broker.c:1822-1845 | CAPS records what the client can do |
| `BrokerCore.Host.WindowCase` | src/broker/nvkvm_broker.c:1847-1901 | WINDOW is validated, and resizes the window only if none has yet |
| `BrokerSafety.GuestSizesWindowOnce` | src/broker/nvkvm_broker.c:1847-1905 | after every history the window was asked to take the first size the guest asked for, if it asked for any, and no other |
| `BrokerCore.Host.Refuse` | src/broker/nvkvm_broker.c:1167-1184 | a violation in place: say goodbye, flush, drop |
| `BrokerCore.Host.HangUp` | src/broker/nvkvm_broker.c:2053-2064 | end of stream or a receive error drops the client |
| `BrokerCore.Host.ResetInbound` | src/broker/nvkvm_broker.c:144-181 | the inbound half of the reset, closing a banked fd |
| `PolicyCore.Core.constructor` | src/broker/nvkvm_broker.c:129-136 | a broker starts without client, grab or keys |
| `PolicyCore.Core.Reset` | src/broker/nvkvm_broker.c:144-181 | no key, packet, number or paste survives into the next connection |
| `PolicyCore.Core.Detach` | src/broker/nvkvm_broker.c:447-478 | detach in place is the specified one: the grab dropped on both sides, a new generation, everything reset |
| `PolicyCore.Core.Attach` | src/broker/nvkvm_broker.c:384-445 | attach in place is the specified one, failed handshakes included |
| `PolicyCore.Core.Emit` | src/broker/nvkvm_broker.c:286-313 | emission in place: coalesce a long queue, give up a stuck client, otherwise append exactly one packet |
| `PolicyCore.Core.Flush` | src/broker/nvkvm_broker.c:315-338 | flush in place, for every outcome of its writes |
| `PolicyCore.Core.ReleaseAll` | src/broker/nvkvm_broker.c:480-493 | every key the client has down is released once, in code order, also when that loses the client |
| `PolicyCore.Core.SetGrab` | src/broker/nvkvm_broker.c:495-547 | the grab in place, through the display backend and with its refusals and its re-check |
| `PolicyCore.Core.DropGrab` | src/broker/nvkvm_broker.c:456-460 | a grab that is on is dropped on the display's side too |
| `PolicyCore.Core.Serve` | src/broker/nvkvm_broker.c:384-1092 | every event in place is the specified step, and keeps the policy invariant |
| `PolicyCore.Core.ForceUngrab` | src/broker/nvkvm_broker.c:1058-1064 | the broker's own interface drops the grab |
| `PolicyCore.Core.CloseRequest` | src/broker/nvkvm_broker.c:1074-1085 | a close request is told to a client, if there is one |
| `PolicyCore.Core.KeyEvent` | src/broker/nvkvm_broker.c:549-632 | a key in place: latch, hotkeys, paste keys, consumed keys, focus gate, duplicate edges |
| `PolicyCore.Core.Trigger` | src/broker/nvkvm_broker.c:752-772 | the first trigger a key completes, none once mode off has been explained |
| `PolicyCore.Core.Button` | src/broker/nvkvm_broker.c:634-648 | a button, gated by focus and pointer or grab |
| `PolicyCore.Core.SetFocus` | src/broker/nvkvm_broker.c:678-703 | focus: on loss the grab goes first, then every key, and FOCUS 0 last |
| `PolicyCore.Core.ClipFinish` | src/broker/nvkvm_broker.c:792-834 | the held chord replayed, cancelled or ignored |
| `PolicyCore.Core.SendClipboard` | src/broker/nvkvm_broker.c:844-897 | the whole text queued, or nothing |
| `PolicyCore.Core.QueueText` | src/broker/nvkvm_broker.c:874-894 | the chunk loop appends exactly the text's chunks |
| `PolicyCore.Core.PasteTrigger` | src/broker/nvkvm_broker.c:982-1051 | the paste trigger in every mode and for every answer of the backend |
| `PolicyCore.Core.Violation` | src/broker/nvkvm_broker.c:1167-1184 | goodbye, flush, detach |
| `TxQueue.CoalesceUnobserved` | src/broker/nvkvm_broker.c:218-276 | a coalescing pass changes no packet that is not motion or FRAME, no journey, and no gating |
| `TxQueue.CoalesceBound` | src/broker/nvkvm_broker.c:218-276 | a coalesced queue is at most twice its other packets plus three long |
| `TxQueue.CoalesceSize` | src/broker/nvkvm_broker.c:218-276 | a pass never lengthens the queue and never touches a head already half sent |
| `TxQueue.CoalesceNumbers` | src/broker/nvkvm_broker.c:238-271 | the last packet of every kind keeps its number through a pass: a merge takes the later one |
| `TxQueue.AdmittedAt` | src/broker/nvkvm_broker.c:650-703 | admissible streams are admissible at every position |
| `TxRing.FlushExtendsWire` | src/broker/nvkvm_broker.c:315-338 | the writes of a flush continue the wire exactly where it stood, no byte lost or repeated |
| `TxRing.FlushGetsOut` | src/broker/nvkvm_broker.c:315-338 | a flush gets out exactly the bytes the socket takes, write by write and never across a packet's end, until it is full, broken or nothing is left, and fails exactly if it broke |
| `TxRing.FlushEmpties` | src/broker/nvkvm_broker.c:315-338 | a socket that takes every packet empties the queue |
| `TxRing.Ring.Push` | src/broker/nvkvm_broker.c:286-313 | one packet into the ring, around its end |
| `TxRing.Ring.Flush` | src/broker/nvkvm_broker.c:315-338 | the flush loop in place is the specified one |
| `TxRing.Ring.Coalesce` | src/broker/nvkvm_broker.c:218-276 | the pass in place leaves the coalesced queue in the ring |
| `TxRing.Ring.Sweep` | src/broker/nvkvm_broker.c:226-272 | the walk from tail to head computes the coalesced queue |
| `TxRing.Ring.Absorb` | src/broker/nvkvm_broker.c:238-271 | one packet: merged into its slot, or kept |
| `TxRing.Ring.Used` | src/broker/nvkvm_broker.c:194-197 | the number of packets queued |
| `Protocol.DecodeInvertsEncode` | src/common/nvkvm_broker_proto.h:210-220 | the 24-byte image of a packet reads back as that packet |
| `Protocol.ClientReadsPackets` | src/common/nvkvm_broker_proto.h:210-220 | a stream of packets and any fragment of a further one reads back as those packets |
| `Utf8.ValidTextIffUtf8` | src/broker/nvkvm_broker.c:920-961 | the validator's rounds accept exactly the encodings of sequences of non-zero Unicode scalar values (sections 3 and 4 of RFC 3629) |
| `Utf8.Utf8Ok` | src/broker/nvkvm_broker.c:920-961 | the loop, in bounds and terminating, decides exactly that |
| `Utf8.ReadContinuation` | src/broker/nvkvm_broker.c:938-947 | the continuation bytes of one character |
| `ClipIn.RunRefines` | src/broker/nvkvm_broker.c:1656-1820 | over any pieces, the six reassembly fields deliver exactly the acceptable transactions' texts, and a piece is a violation exactly when it fits no transaction |
| `ClipIn.DeliveredIsHonest` | src/broker/nvkvm_broker.c:1656-1820 | a delivered text is the join of pieces 0..k of one transaction |
| `ClipIn.JudgedAlone` | src/broker/nvkvm_broker.c:1704-1790 | a transaction is judged on its own pieces, whatever was rejected or abandoned before it |
| `ClipIn.OffDeliversNothing` | src/broker/nvkvm_broker.c:1725-1737 | mode off delivers nothing |
| `ClipIn.FeedRefines` | src/broker/nvkvm_broker.c:1656-1820 | one piece against the history of the connection |
| `ClipIn.Inbox.Receive` | src/broker/nvkvm_broker.c:1711-1796 | the fixed buffer in place does just that, never past its end |
| `RateLimit.CommandsPerSecond` | src/broker/nvkvm_broker.c:1993-2002 | any commands the limiter tolerates: at most two windows' worth in any 1000 ms |
| `RateLimit.CommandsPerSecondTight` | src/broker/nvkvm_broker.c:1993-2002 | and that many do fit |
| `RateLimit.RejectionsConserved` | src/broker/nvkvm_broker.c:1128-1149 | rejections are conserved: lines written, lines reported as swallowed, lines still to be reported |
| `RateLimit.Throttle.Allow` | src/broker/nvkvm_broker.c:1128-1149 | the counters in place are the specified throttle |
| `Descriptor.AcceptedIff` | src/broker/nvkvm_broker.c:1233-1498 | ATTACH accepts a descriptor if and only if it is the request's geometry, modifier, kind and number with the fd's inode and measured size, of the right kind of fd, within all bounds, in the format asked for if the display advertises that, else in its opaque twin |
| `Descriptor.AcceptedIsAdvertised` | src/broker/nvkvm_broker.c:1195-1208 | a dma-buf is handed on only as a pair the display advertises |
| `Descriptor.Validate` | src/broker/nvkvm_broker.c:1233-1498 | an accepted descriptor has bounded sides and stride, and its extent fits the measured file and an int32 |
| `Descriptor.PixelInside` | src/broker/nvkvm_broker.c:1309-1497 | every byte of every pixel of a bounded descriptor lies inside the file, at an int32 address |
| `Descriptor.PixelsDisjoint` | src/broker/nvkvm_broker.c:1388-1410 | no two pixels share a byte |
| `Descriptor.ConversionsLossless` | src/broker/nb_session_wl.c:693-712 | the numbers passed on as int32 are the numbers that were checked |
| `Descriptor.QueryIsBinding` | src/broker/nvkvm_broker.c:1186-1214 | a yes to QUERY_FORMAT binds the descriptor checks: whether they accept then depends only on the fd and the bounds |
| `Formats.Table.Add` | src/broker/nb_common.c:203-257 | the table holds only what the tier offers, each pair once, all of it unless it says it overflowed |
| `Formats.Table.Has` | src/broker/nb_common.c:259-269 | membership |
| `WlImport.ImportsAreVouchedFor` | src/broker/nb_session_wl.c:558-633 | over every run, whichever outstanding probe the display answers: at most one is outstanding, recorded for the pair asked about; the fatal import only for pairs the display answered created |
| `WlImport.AttachInvalidIff` | src/broker/nb_session_wl.c:635-763 | past the descriptor checks, ATTACH still answers EINVAL exactly when the cache does not hold the buffer and the display has refused the pair or four other pairs hold the entries (for shared memory: when the display has none) |
| `WlImport.QueryNotBinding` | src/broker/nb_session_wl.c:740-763 | so a yes to QUERY_FORMAT does not bind the display: a pair it has refused still resolves, and is turned down |
| `WlImport.RefusalsToldIff` | src/broker/nb_session_wl.c:604-628 | over every run the client hears of refusals only, of each at most once; every refusal has been passed on or is the one pending, if and only if no two arrived without a COMMIT in between |
| `WlImport.RefusalLostIff` | src/broker/nb_session_wl.c:604-628 | a step loses a pair's refusal exactly when it is another refusal while that one is pending |
| `WlImport.FirstRefusalLost` | src/broker/nb_session_wl.c:604-628 | two pairs refused before a COMMIT: the client never hears of the first |
| `WlImport.ShownIsVouchedFor` | src/broker/nb_session_wl.c:635-841 | over every run, whatever the cache holds, the slot on screen included, is of a pair the display answered created and never refused, or was attached as shared memory |
| `WlImport.ImportedIff` | src/broker/nb_session_wl.c:740-831 | a pair is imported exactly when the display has answered created for it, no probe is in flight and both library calls succeed; it is then on record as given to the fatal import |
| `WlImport.PinsAreValid` | src/broker/nb_session_wl.c:635-1157 | over every run: a slot is pinned for the next COMMIT exactly while something is staged, and holds it; one is pinned as on screen exactly while something is shown, and holds that; keys are distinct and a victim exists, never a pinned slot |
| `WlImport.CommitShowsStaged` | src/broker/nb_session_wl.c:964-1157 | COMMIT succeeds exactly when a buffer is staged, and then that buffer is on screen |
| `WlImport.NewAttachOutcome` | src/broker/nb_session_wl.c:635-841 | a dma-buf the cache does not hold: refused, put off, imported into a victim's slot, or asked about, by the display's answers so far and the probe in flight |
| `WlImport.PlainAttachOutcome` | src/broker/nb_session_wl.c:645-738 | a cached buffer is staged in its own slot whatever the table says; shared memory in a victim's, if the display has any |
| `WlImport.RunKeeps` | src/broker/nb_session_wl.c:558-841 | every run keeps the cache and probe invariants, and no verdict ever changes |
| `WlImport.AnswerKeeps` | src/broker/nb_session_wl.c:589-628 | an answer is recorded against the pair it was asked for, in that entry only |
| `WlImport.VerdictUnique` | src/broker/nb_session_wl.c:589-628 | no pair is answered both ways |
| `WlImport.VictimExists` | src/broker/nb_session_wl.c:662-679 | two pins cannot hold eight slots; the victim is empty or least recently used, and never pinned |
| `WlImport.Backend.AttachBuffer` | src/broker/nb_session_wl.c:635-841 | attach in place is the specified one |
| `WlImport.Backend.ImportPair` | src/broker/nb_session_wl.c:740-831 | probe, wait, import or refuse, in place |
| `WlImport.Backend.SlotFor` | src/broker/nb_session_wl.c:558-578 | the entry of a pair, or a free one |
| `WlImport.Backend.ProbeAnswered` | src/broker/nb_session_wl.c:589-628 | the two probe callbacks in place |
| `WlImport.Backend.PickVictim` | src/broker/nb_session_wl.c:662-679 | the eviction scan |
| `WlImport.Backend.FindHit` | src/broker/nb_session_wl.c:645-660 | the hit scan |
| `WlImport.Backend.Present` | src/broker/nb_session_wl.c:964-1010 | commit's slot bookkeeping, and the pending refusal it passes on |
| `WlImport.Backend.ShowIdle` | src/broker/nb_session_wl.c:2477-2520 | the placeholder takes the import off screen and leaves what is staged |
| `AspectFit.AspectFitsIff` | src/broker/nb_session_wl.c:916-951 | aspect fit lies inside the window exactly when both computed sides are positive, and then meets it in one dimension and is within a pixel of the exact ratio in the other |
| `AspectFit.CoversIff` | src/broker/nb_session_wl.c:927-943 | the exact condition for covering the window: equal ratios, or off by no more than the one-pixel snap |
| `AspectFit.CoveredWithoutExactRatio` | src/broker/nb_session_wl.c:936-943 | a window covered without an equal ratio, so the simple condition is not exact |
| `AspectFit.Viewport.Apply` | src/broker/nb_session_wl.c:881-962 | the computation in place, all three modes |
| `X11.PictureShowsPixels` | src/broker/nb_session_x11.c:661-692 | the pushed picture is the buffer's, pixel byte for pixel byte |
| `X11.PackRows` | src/broker/nb_session_x11.c:678-690 | the row-packing loop reads only mapped bytes and leaves the first 4*width bytes of each row, in order |
| `X11.Blit` | src/broker/nb_session_x11.c:1378-1396 | the bands are whole consecutive rows and together are the picture; all of them fit the server's limit exactly when one row does |
| `X11.BandFitsIff` | src/broker/nb_session_x11.c:1381-1386 | a band of the chosen height fits one request exactly when a single row does |
| `X11.RowTooLong` | src/broker/nb_session_x11.c:1381-1386 | the longest row there may be does not fit the smallest limit a server may have, and is sent all the same |
| `X11.FrameWork` | src/broker/nb_session_x11.c:708-709 | no frame is charged more than 2*4*8192*8192 |
| `X11.Backend.AttachBuffer` | src/broker/nb_session_x11.c:319-538 | the exact condition under which a buffer is staged, the slot it is staged in, and that no other is touched; a wait for the server needs an allowance; what the server is asked to import is what was validated |
| `X11.Backend.Describe` | src/broker/nb_session_x11.c:442-500 | the request's narrow fields lose nothing: a geometry that would not fit is refused |
| `X11.Backend.PickVictim` | src/broker/nb_session_x11.c:389-405 | a victim always exists, is not pinned, and is free or least recently used |
| `X11.Backend.Commit` | src/broker/nb_session_x11.c:642-780 | a frame is shown exactly when a buffer is staged and its copy can be had; pixels go out as its picture and are charged; the release names the buffer, and pacing follows |
| `X11.Backend.SetGrab` | src/broker/nb_session_x11.c:1577-1643 | a refused keyboard or pointer leaves the flag as it was; dropping never fails |
| `X11.Work.TakeRoundtrip` | src/broker/nvkvm_broker.c:1958-1965 | at most four allowances a wakeup |
| `SweepPlan.Plan` | scripts/sweep_plan.py:191-219 | every node has one driver per reachable boundary; a claimed version again only when all candidates are claimed; new versions number the entries marked fresh |
| `SweepPlan.PlanArch` | scripts/sweep_plan.py:193-219 | the same for one architecture's nodes |
| `SweepPlan.PlanNode` | scripts/sweep_plan.py:199-211 | the same for one node |
| `SweepPlan.Choose` | scripts/sweep_plan.py:203-210 | the pick: the n-th unclaimed candidate, else the newest |

## Left out

- Sockets, polling, the listener, peer credentials, privilege dropping, argument parsing and the main loop: their results are inputs here.
- Wayland and X11 requests, window chrome, cursors, dialogs, the placeholder's pixels and colour management: only flags, slots, integer geometry and the pushed bytes are modelled.
- The resync a backend performs after an attach: it arrives as ordinary focus, pointer and key events.
- The in-flight detector of the Wayland backend and `buf_release`'s bookkeeping: they only count and log.
- The Wayland backend's grab requests: that backend never refuses, so only the X11 one has a method.
- Log lines and the attach, commit and reject counters; only the throttle on rejection lines is modelled.
- The one-time notes `clip_told_noclient` and `clip_told_noagent`: they gate log lines only.
- Wrap-around of the 64-bit generation, tick and work counters: they are natural numbers here (the work counter is proved far below its limit); the 32-bit packet number and chunk counters do wrap.
- The order of packet numbers inside the queue: a merge keeps the earlier place and takes the later number.
- Positions at the moment of a click: absolute motion may be merged across buttons, so positions are claimed per stretch and at the end.
- Down/up alternation of single keys: the paste replay emits its edges unconditionally; the last-edge view is claimed instead.
- The parsing of driver tags, their sorting, ABI profiles, guest images and the printing in the sweep planner: boundaries with sorted versions are its input.
- The ABI headers, the isolation and ring protocols, the matrix and tracing tools: tables and declarations that would only add easy members.
- Core: the bitmaps `key_down` and `consumed` are set-valued fields, and related scalars are grouped into records (window, keys, paste state), rather than one flat structure.
- Host: the backend behind it is the X11 one; the Wayland backend's verdict on a refused pair reaches the sink as a report of COMMIT in the specification only.
- RefusalsToldIff: "the client" is whoever is connected at the COMMIT; the backend keeps a pending refusal across connections, and so does the model.
- Table.Add: the tiers are a parameter of each call; the C code reads them from one global setting.
- Core.SetGrab: called where the sink's grab flag and the display's agree, as GrabNeverOutlivesClient shows of every reachable state; KeyEvent and ForceUngrab ask the same.
- Blit: the fit is stated for servers whose limit is at least 4096 words, which every X server's is.
