# Verification model of CrossScreen

CrossScreen shares one keyboard, mouse and clipboard among several machines.
One node, the server, owns the physical input. It arranges its own screens and
those its peers report on one virtual desktop, routes a shared cursor over it,
and forwards input to the machine under the cursor. Clipboard changes and
copied files travel over the same connections.

The project models these parts and proves what they keep:

- **The shared cursor** (`Layout`, `Routing`, `Sessions`, `Placement`,
  `Coordinates`, `Adapter`, `Fleets`, `Clients`, `Suppression`, `Orderly`,
  `Crossings`, `Keystrokes`, `Witnesses`). The geometry of crossing, the
  stateful router, the hub that writes to peers, the rebuilding of the
  arrangement and the switching between coupled and relative mode.
  `Fleets` runs them as a system of atomic steps over one FIFO log per
  connection; `Clients` is the receiving end. Coordinates are Go's int32, with
  wrap-around, throughout.
- **File transfer** (`Names`, `Paths`, `Transfers`, `Streams`, `Deliveries`,
  `EndToEnd`, `Rulings`, `Inboxes`, `Notices`, `Endings`, `Staging`,
  `Directories`, `Aliases`, `Isolation`, `Replies`, `Managers`, `Outboxes`,
  `Ledgers`). A chunking sender, a bounded FIFO queue and a receiver state
  machine over a staging disk, surrounded by offer, answer, cancel, attach and
  detach steps.
- **Input capture on macOS** (`Captures`, `Scrolls`, `Handlings`). The event
  ring, the coalescing of moves and the normalisation of scrolling.
- **Clipboard sharing** (`Clipboards`, `Copying`). The echo marker of one node,
  and the star in which the server relays every change.
- **Two smaller algorithms** (`Blurs`, `Frames`). The sliding-window box blur of
  the icon generator and the length-prefixed frames of the wire protocol.

Objects that the program updates in place are classes here, and loops stay
loops. Each method is proved equal to a step on values, and the theorems are
about those steps and about every run of them. What a foreign call returns -
writes that fail, disk errors, clock readings, the order in which a Go map is
enumerated - is an input of the step that makes the call, so the theorems hold
for every outcome unless they say otherwise.

Some statements needed a history the program does not keep: the arrangement
under which a move was sent, the chunks accepted so far, who wrote a clipboard.
Such fields are marked where they are declared, and no branch reads them, but
for one: `Outboxes` keeps the ids ever made, so that a new one is fresh as
`newTransferID` makes it by clock and chance.

Places where the code does less than its documentation or a caller might
expect are stated as results:

- A rebuild that moves a peer's screen can leave the cursor on no screen with
  input still suppressed, until the next mouse movement (`RebuildCanStrand`,
  `GuardAfterRebuild`, `NonZeroMoveRestores`).
- The router adds the screen's origin to coordinates that are already global,
  so control is handed over only by pushing outward when the local screen is
  at the origin (`OffOriginHandsOverUnpushed`, `OnlyOutwardPushHandsOver`).
- The sender emits no chunk for an empty file, so an offer with one always ends
  Failed (`TransferIsExact` gives the exact condition).
- `Detach` closes a cancel channel that a cancel message may already have
  closed (`DetachFailsIff`).
- A peer that declined or canceled an offer is still streamed to when an accept
  from it arrives later (`StreamedIff`, `DeclinedThenStreamed`).
- The sizes of an offer are summed in int64, so an offer far above the limit can
  wrap below it and start without asking (`AutoOverLimitIff`).
- Transfers are told apart by id but stage under the directory the id names, so
  `t` and `./t` write to the same files (`DotSlashAliases`), and after `Detach`
  an id offered again overwrites what it staged (`LostAfterDetach`).
  `StepLosesIff` says exactly when a transfer loses bytes, `PlainIdsKeepApart`
  that ids like the program's own are safe.
- File names are checked so that nothing is written outside the staging
  directory; ids are not, and `..` is taken (`DoubleDotEscapes`; exactly which
  ids stay below is `BelowIff`).
- Control characters are said to be rejected in names, but only NUL is
  (`ControlAccepted`).
- Where a hand placement covers a peer's screen, moves meant for it land
  elsewhere (`CoveredMoveMisses`; exactly when, `MovesLandWhereTheServerMeant`).
- The clipboard marker does nothing for empty text, and a marker left over from
  an overwritten change swallows a later copy of the same text
  (`EmptyCopyNeverQuiet`, `IsolatedCopyReachesAllIff`).

`dafny verify dfyconfig.toml` checks everything.

## Model

| member | source | states |
|---|---|---|
| Layout.MoveExactOrNearest | core/layout/crossing.go:20-43 | From any on-screen point a move ends exactly on the target iff some screen contains it, and otherwise on the one point of the current screen nearest the target by Manhattan and Euclidean distance; it crosses iff it leaves the screen under the start. No disjointness, unique ids or coordinate bounds are needed, wrap-around included |
| Layout.MoveAgreesWithLookup | core/layout/crossing.go:29-72 | On a disjoint layout the adjacency search never changes the answer: the reported screen is the one a plain lookup finds under the reported position |
| Layout.AgreesIff | core/layout/crossing.go:29-72 | Exactly which layouts never see it change, over all moves between any two points: no two screens a pointer can be looked up on overlap, and from none of them the search settles on a screen no lookup finds |
| Layout.AgreesIffDisjoint | core/layout/crossing.go:29-72 | If no screen with a point is hidden behind earlier ones and none is listed twice, these are exactly the disjoint layouts |
| Layout.OverlapCanDisagree | core/layout/crossing.go:58-72 | With overlapping screens the answer can change: a concrete layout where the pointer is reported on a screen other than the one looked up |
| Layout.NeighboursFirst | core/layout/crossing.go:29-91 | On any layout of screens within int32: a pointer leaving its screen goes to the first other screen with the target that meets its screen along an edge, even if another one there is listed earlier, and only without such a neighbour to the first screen there, or nowhere |
| Layout.OnlyScreenAt | core/layout/layout.go:44-51 | On a disjoint layout any screen containing a point is the one first-match lookup returns |
| Layout.MoveUndone | core/layout/crossing.go:22-43 | An unclamped move is undone exactly by the opposite delta, on any layout and across int32 wrap-around |
| Layout.AcrossEdge | core/layout/crossing.go:59-72 | The search loop finds the first adjacent screen with the target, else whatever screen has it; the exit edge passed in plays no part |
| Layout.Advance | core/layout/crossing.go:29-43 | The steps of a move, with the exit edge computed and passed on, meet the rule the results above are about |
| Layout.ClampTo | core/layout/crossing.go:93-107 | Clamping both coordinates into the half-open extents, as the nearest-point result uses it |
| Routing.Router.constructor | core/session/router.go:25-31 | A new router stands at (0, 0) on whatever screen is there |
| Routing.Router.SetLayout | core/session/router.go:33-39 | Keeps the position and re-locates the current screen |
| Routing.Router.SetPosition | core/session/router.go:68-75 | Re-locates at an absolute position without clamping |
| Routing.Router.MoveTo | core/session/router.go:90-97 | The whole new state follows the crossing rule from the old position; the screen returned is the new current one |
| Routing.Router.MoveByDelta | core/session/router.go:79-86 | As MoveTo, by an int32 delta from the old position |
| Routing.Router.OnLocalMove | core/session/router.go:50-57 | As MoveTo, at the screen origin plus the given coordinates |
| Routing.RouterInvariant | core/session/router.go:33-97 | Every sequence of the five mutators from a new router keeps the cursor on its current screen; no current screen iff none is there; on disjoint layouts the current screen is the looked-up one |
| Routing.MovesStayOnDesktop | core/session/router.go:50-97 | Once on a screen, no sequence of moves leaves the desktop |
| Routing.MovesGoWhereHeaded | core/session/router.go:50-97 | From a screen, a pointer move, a move by a delta in both directions and an absolute move each end exactly where they are headed if any screen is there, else on the one nearest point of the screen they started on |
| Routing.DeltaUndone | core/session/router.go:79-86 | A delta that led to a screen is undone by the opposite delta, wrap-around included |
| Coordinates.PhysicalRoundTrip | platform/adapter/adapter.go:125-155 | On a disjoint arrangement of a device's disjoint screens, physical to virtual and back is the identity at every physical point, on the same screen |
| Coordinates.VirtualRoundTrip | platform/adapter/adapter.go:125-155 | Virtual to physical and back is the identity on the device's part of the desktop, and lands on the device's screen of that id |
| Coordinates.ConversionIsInjective | platform/adapter/adapter.go:144-155 | Distinct physical points never share a virtual point |
| Coordinates.RebaseKeepsOffset | platform/adapter/adapter.go:134-155 | The two subtractions and additions cancel within int32 and keep the offset within the screen |
| Placement.RowPosition | platform/adapter/adapter.go:384-402 | Within the stated width bound no running sum overflows: an automatic screen starts after exactly the automatic widths before it |
| Placement.AutoPlacedOffLocal | platform/adapter/adapter.go:357-402 | Automatically placed screens are apart from every local screen, and local screens come first and unchanged |
| Placement.AutoPlacedApart | platform/adapter/adapter.go:384-402 | For any peer order, screens and manual placements, automatically placed screens are apart from each other and consecutive ones are adjacent |
| Placement.DeskDisjointIff | platform/adapter/adapter.go:357-402 | For disjoint local screens and a row that fits, the arrangement is disjoint iff its hand-placed screens are apart from all others; so it is when none is placed by hand |
| Placement.ReportedArePlaced | platform/adapter/adapter.go:384-402 | Every screen a ready peer reported is on the desk with its id and size under the peer's hostname |
| Placement.PlacedAreReported | platform/adapter/adapter.go:384-402 | Conversely every screen past the local ones is such a copy |
| Placement.PlaceKeeps | platform/adapter/adapter.go:390-401 | Placing changes only the position, and a manual placement is honoured |
| Placement.AutoPlacedAt | platform/adapter/adapter.go:357-402 | Every automatically placed screen is level with the last primary local screen, or the first local one when none is primary; within the width bound its x less the automatic widths before it is 0 or exactly the right edge of the rightmost local screen |
| Sessions.PeerFor | core/session/server.go:436-445 | The peer returned is ready and has the wanted hostname |
| Sessions.Server.SetLayout | core/session/server.go:134-148 | The router takes the arrangement and each ready peer in turn gets it, stopping at the first failed write |
| Sessions.Server.OnLocalPointerMove | core/session/server.go:156-171 | The cursor follows the local pointer and, on a peer, exactly that peer's connection gets the new virtual position |
| Sessions.Server.OnLocalDeltaMove | core/session/server.go:176-191 | The same for a raw delta |
| Sessions.Server.RouteLocalEvent | core/session/server.go:211-225 | A local button, scroll or key goes to the device under the cursor and nowhere else |
| Sessions.Server.RoutePeerMove | core/session/server.go:365-382 | A peer's move moves the shared cursor and is relayed unclamped, never back to its sender |
| Sessions.Server.RouteFromPeer | core/session/server.go:386-399 | A peer's input event is applied locally or relayed by the cursor's device |
| Sessions.Server.HandleHello | core/session/server.go:262-280 | The peer is registered and ready before the acknowledgement is written |
| Sessions.Server.HandleLayout | core/session/server.go:284-298 | Records what a known peer reported, leaving the arrangement alone |
| Sessions.Server.HandleDisconnect | core/session/server.go:401-406 | Exactly that connection is dropped from the registry |
| Adapter.PrimaryOf | platform/adapter/adapter.go:606-617 | A primary local screen, or the first when none is primary |
| Adapter.AdapterServer.constructor | platform/adapter/adapter.go:257-292 | Start-up rebuilds the arrangement before any peer connects and then seeds the cursor from the capture driver |
| Adapter.AdapterServer.SetRelative | platform/adapter/adapter.go:540-549 | The driver is told only when the flag changes |
| Adapter.AdapterServer.ForceRelease | platform/adapter/adapter.go:591-602 | Leaves relative mode and snaps both cursors to the primary local screen; nothing when not relative |
| Adapter.AdapterServer.ReleaseIfActiveGone | platform/adapter/adapter.go:419-448 | Nothing while the active device still has a screen, else cursor to the primary screen and relative mode off |
| Adapter.AdapterServer.RebuildLayout | platform/adapter/adapter.go:357-414 | The whole new state after a rebuild: arrangement (where its screens are: Placement.AutoPlacedAt), release and push, in this order |
| Adapter.AdapterServer.OnMove | platform/adapter/adapter.go:450-528 | The whole new state after a mouse move in either mode, every failed write included |
| Adapter.AdapterServer.OnInput | platform/adapter/adapter.go:565-584 | A button, scroll or key that cannot be forwarded releases relative mode |
| Adapter.AdapterServer.OnPeerMove | platform/adapter/adapter.go:158-169 | A peer's move for this machine is injected at its converted position |
| Adapter.AdapterServer.OnHello | platform/adapter/adapter.go:267-268 | A hello rebuilds the arrangement only after its acknowledgement was written |
| Adapter.AdapterServer.OnReport | platform/adapter/adapter.go:354-414 | A known peer's report rebuilds the arrangement, an unknown one does nothing |
| Adapter.AdapterServer.OnGone | core/session/server.go:401-406 | A disconnect drops the peer and rebuilds |
| Adapter.AdapterServer.SetPlacement | platform/adapter/adapter.go:339-344 | A manual placement is recorded and the arrangement rebuilt |
| Adapter.AdapterServer.ClearPlacement | platform/adapter/adapter.go:347-352 | A manual placement is forgotten and the arrangement rebuilt |
| Crossings.PlacementAndBack | platform/adapter/adapter.go:339-352 | A placement given for a reported screen is where that screen is after the call; clearing it puts the screen back into the row, level with it and after the automatic widths before it |
| Fleets.EveryMoveUnderItsLayout | core/session/server.go:134-191 | Over all runs with unique live hostnames and successful layout writes: before any move in a device's FIFO log the last arrangement is the one the server held when it sent it, and the move lies on a copy of one of that device's own screens (a relayed one may lie on none) |
| Fleets.EveryInputOnOwnScreen | core/session/server.go:211-225 | Over the same runs: every button, scroll and key in a device's log was sent while the cursor was on a copy of one of that device's own screens, one of the last arrangement before it |
| Fleets.RunKeepsInv | core/session/server.go:262-406 | Every legal run of local input, joins, reports, leaves, placements and peer events keeps registry, logs and arrangement in step |
| Clients.Client.Dispatch | core/session/client.go:178-197 | Installs arrangements and injects converted moves, one message at a time |
| Clients.HoldsLastDesk | core/session/client.go:178-191 | A device that has consumed any prefix of its log holds the last arrangement in it |
| Clients.MovesLandWhereTheServerMeant | core/session/client.go:178-197 | End to end: a device that has consumed what precedes a move holds the server's arrangement, and if the first screen under the move is the device's own - as on every disjoint arrangement - the move warps the pointer inside that physical screen at the same offset; a relayed move on no screen is dropped. If another device's screen comes first, the warp is right iff the device's screen physically lies where it was placed |
| Witnesses.CoveredMoveMisses | core/session/client.go:178-197 | A run from start-up in which a hand placement covers half of the peer's screen and a move the server sends for it misses the spot |
| Orderly.TidyRunsLandRight | platform/adapter/adapter.go:339-414 | In every legal run whose rebuilds keep hand-placed screens apart from all others and the row within int32, the arrangement is disjoint and every move in every log lands right |
| Clients.PushReaches | core/session/server.go:140-146 | Without the write hypothesis: an arrangement reaches exactly the ready peers enumerated before the first failed write |
| Clients.PushSucceedsIff | core/session/server.go:134-148 | The push reports success iff no write to a ready peer fails |
| Clients.BeforeAnyDesk | platform/adapter/adapter.go:125-131 | Until a first arrangement has come, a device injects moves at the coordinates they carry |
| Crossings.PushCrosses | platform/adapter/adapter.go:472-527 | For each of the four sides: a pointer within 12 pixels of a side of a local screen, pushed out of it and of none tried earlier, with a peer's screen one delta beyond the outermost pixel (as the router adds the origin): the cursor is exactly there, relative mode is on, that peer alone is told that point, and the pointer is held three pixels inside the same side |
| Crossings.RelativeMoveGoes | platform/adapter/adapter.go:458-469 | A relative move that ends on a peer: the cursor is at the position plus the delta in both directions if any screen is there, else at the nearest point of the current one, and the one message appended to that peer's log carries this position |
| Crossings.PeerMoveGoes | core/session/server.go:365-382 | A client's move takes the shared cursor to the point itself if any screen is there, else to the nearest point of the current screen |
| Crossings.PeerMoveTells | core/session/server.go:365-382 | If it ends on another client's screen, that client alone is told, and told the point itself |
| Crossings.PeerMoveLandsHere | platform/adapter/adapter.go:158-169 | If it ends on the server's own screen, the server's pointer is warped to the same offset on the physical screen and nothing is sent |
| Crossings.RelayNeverEchoes | core/session/server.go:365-399 | No move or input event is ever written back to the connection it came from |
| Crossings.RelayReports | core/session/server.go:377-381 | A relay that fails is reported and leaves every log as it was; any other is not |
| Keystrokes.DeviceTypes | core/session/client.go:178-197 | What a device types after consuming its log are the input events of the log, each once and in order |
| Keystrokes.TypedAsMeant | core/session/server.go:211-225 | End to end, over every legal run from start-up: a client that has consumed its log has typed exactly the events pressed, on the server or on another client, while the cursor was on one of its screens and its connection took writes, in order; the server has typed exactly what clients pressed while the cursor was on the server |
| Suppression.EveryRunSettled | platform/adapter/adapter.go:357-602 | In every run, whatever fails, the capture driver suppresses and bounces exactly when the node is in relative mode, and local screens lead the arrangement |
| Suppression.InputRunKeepsGuard | platform/adapter/adapter.go:450-584 | Runs of local input keep: relative mode only while the cursor is on a peer |
| Suppression.NonZeroMoveRestores | platform/adapter/adapter.go:450-528 | From any state at all, a coupled or non-zero move restores it |
| Witnesses.RebuildCanStrand | platform/adapter/adapter.go:409-414 | A rebuild can break it: a run from start-up - a peer joins and reports, the pointer is pushed over the edge, the peer's screen is placed elsewhere - ends with the cursor on no screen and the driver still suppressing |
| Suppression.GuardAfterRebuild | platform/adapter/adapter.go:357-448 | Exactly when a rebuild keeps it: the active device lost its screens and is released, or a peer screen of the new arrangement is under the cursor |
| Suppression.GuardAfterPeerMove | core/session/server.go:365-382 | Exactly when a peer's move keeps it, on any arrangement: it ends on a peer's screen; on a disjoint one that is the screen under the target, or the current one if there is none |
| Suppression.RemovalReleases | platform/adapter/adapter.go:419-448 | A rebuild that removes the active device ends with relative mode off and both cursors at the centre of the first primary local screen (the first one when none is primary), overlaps and failed writes included |
| Suppression.FailedForwardReleases | platform/adapter/adapter.go:458-462 | A failed forward of a move or input event while relative ends the same way |
| Suppression.HandOverExactly | platform/adapter/adapter.go:472-527 | On any arrangement a coupled move turns relative mode on iff the projected target, with the origin added, takes the cursor to a peer's screen and that peer's connection, if it has one, takes the write |
| Suppression.OnlyOutwardPushHandsOver | platform/adapter/adapter.go:476-527 | For a local screen at the origin: without a push out of an edge band the router follows the physical position and nothing is sent, so only an outward push within 12 pixels hands over |
| Witnesses.OffOriginHandsOverUnpushed | core/session/router.go:50-57 | Off the origin the offset is added twice: a run from start-up in which a mid-screen move of one pixel, pushing no edge, hands over to a peer that joined |
| Suppression.PushIsOutward | platform/adapter/adapter.go:482-496 | The four-way switch detects exactly an outward push from a band that does not reach over an end of int32; over it the arithmetic wraps and the push is missed |
| Suppression.HandOverPins | platform/adapter/adapter.go:504-526 | Relative mode turns on with the driver suppressing and bouncing at the pin, which lies on a local screen of at least 4 pixels each way |
| Suppression.ComingHomeWarps | platform/adapter/adapter.go:458-469 | When the shared cursor comes back, relative mode and suppression end and the physical cursor is warped to it; while it stays away nothing is injected |
| Suppression.PinOnScreen | platform/adapter/adapter.go:504-526 | The pin lies on the local screen iff that screen has at least 4 pixels across the crossed edge |
| Names.SanitizeAcceptsSafe | platform/filexfer/filexfer.go:854-874 | Accepted names are exactly the safe ones after trimming, and accepting again changes nothing |
| Names.ControlAccepted | platform/filexfer/filexfer.go:854-866 | A control character inside a name is accepted iff it is not NUL |
| Names.CharacterAccepted | platform/filexfer/filexfer.go:856-874 | Which characters may stand inside a name: all but ten |
| Names.CandidateInjective | platform/filexfer/filexfer.go:883-886 | Different counters give different names |
| Names.CandidateKeepsExtension | platform/filexfer/filexfer.go:883-886 | A numbered name is the name with a space and the number in brackets put before its last dot, or at its end when it has none |
| Names.UniqueName | platform/filexfer/filexfer.go:878-892 | The unbounded search ends for any finite set and returns the name itself if unused, else the first unused numbered candidate |
| Names.StageDistinct | platform/filexfer/filexfer.go:342-353 | Staging any list of accepted names gives as many names, pairwise distinct, free of rejected characters, each the one the numbering rule demands |
| Names.CandidateSafe | platform/filexfer/filexfer.go:876-892 | A numbered name would itself be accepted iff the name has a stem |
| Transfers.ProcessKeeps | platform/filexfer/filexfer.go:639-731 | Under any chunk and any failure: counters and open handle stay right, only the current file changes, the staged bytes stay right if they were, terminal states are absorbing |
| Transfers.OpenTruncates | platform/filexfer/filexfer.go:704-714 | Receiving without a handle means no byte of the current file was accepted, so O_TRUNC discards nothing |
| Transfers.CompletedFilesFinal | platform/filexfer/filexfer.go:721-729 | A complete file has its declared size and no later chunk of its transfer changes it |
| Transfers.DoneIsComplete | platform/filexfer/filexfer.go:667-688 | Done means every file is the in-order concatenation of its accepted chunks at its declared size, and done equals total |
| Transfers.ProgressBounded | platform/filexfer/filexfer.go:718-729 | Progress never exceeds the total |
| Transfers.ProgressAddsUp | platform/filexfer/filexfer.go:768-782 | Per-file progress sums to the transfer's progress |
| Rulings.ChunkIsRuled | platform/filexfer/filexfer.go:639-731 | One chunk for a receiving transfer, any chunk and any outcome of the calls: exactly when its bytes are written, when it is stored, and when it finishes the transfer; in every other case the transfer fails and the reason it records is a true one |
| Streams.Stream | platform/filexfer/filexfer.go:555-634 | Undisturbed, it sends exactly the full stream; it finishes iff the terminating chunk went out; otherwise what it sent is a proper prefix, at worst with a last chunk cut by a read error; the progress reported is the bytes sent |
| Streams.ChunksRejoin | platform/filexfer/filexfer.go:585-621 | The chunks of a file joined are the file |
| Streams.BlocksInOrder | platform/filexfer/filexfer.go:585-621 | Chunk k of a file carries its bytes from offset k times 256 KiB on: a full block, but for the last one, which carries the rest |
| Streams.CutHasNoFin | platform/filexfer/filexfer.go:625-633 | An interrupted stream never contains the terminating chunk |
| EndToEnd.TransferIsExact | platform/filexfer/filexfer.go:555-731 | Accepted offer, no failure, no cancel: Done iff every source is non-empty and as long as declared, else Failed; if Done every staged file equals its source byte for byte |
| EndToEnd.EveryScheduleIsExact | platform/filexfer/filexfer.go:199-210 | The same over every interleaving of sending, arriving in the bounded queue and processing; Done only once everything was sent and drained |
| Deliveries.InterruptedTransfer | platform/filexfer/filexfer.go:555-731 | The sender cut short anywhere, any of the receiver's calls failing: never Done, and every completed file is the first declared bytes of its source, so the source itself iff that is as long as declared |
| Deliveries.NoFinNoDone | platform/filexfer/filexfer.go:667-688 | Without the terminating chunk no sequence of chunks finishes a transfer, whatever calls fail |
| Deliveries.AcceptedAreFirst | platform/filexfer/filexfer.go:639-731 | Whatever calls fail, the accepted chunks are the first k of those that came |
| Deliveries.CompleteAreInPlace | platform/filexfer/filexfer.go:721-729 | Whatever chunks come from a sender that never goes beyond its sources, every complete file is on disk as the first declared bytes of its source |
| Inboxes.RunKeeps | platform/filexfer/filexfer.go:225-418 | Over any interleaving of offers, answers, chunks, write-loop turns, cancels, attaches and detaches, and whatever directories the ids name: every transfer's counters and handle stay right, dropped ones are inert, every transfer keeps its identity and what it accepted, and Done, Failed, Declined and Canceled are absorbing |
| Inboxes.OpenHandleIsReceiving | platform/filexfer/filexfer.go:535-550 | In every such state an open handle is the current file of a registered Receiving transfer |
| Inboxes.AnswerErrors | platform/filexfer/filexfer.go:390-418 | What each error of an answer means: unknown or not pending changes nothing, no directory fails the transfer, a reply that could not be sent leaves it Receiving or Declined all the same; something was sent iff there is no error |
| Rulings.OfferTakenIff | platform/filexfer/filexfer.go:331-387 | An offer is taken iff it has an id, comes from another node, has one to 64 files with safe names and no negative size, and its id is free: then one transfer joins, with nothing received, started iff its total is within the limit. Otherwise nothing changes. Its sender gets an error iff it is malformed, or started and not acknowledged |
| Notices.StepNotified | platform/filexfer/filexfer.go:331-731 | Every step of an attached manager sends exactly what has just become of a transfer: an accept when it starts, a decline when the user declines it, done or a failure when it ends so; nothing when it is canceled or nothing changes |
| Notices.SendersKnow | platform/filexfer/filexfer.go:331-731 | Over every run of an attached manager whose messages go out: all that was ever sent about an id is the story of its transfer - nothing while pending, an accept once started, then done or a failure when it ended so, or a single refusal - and nothing about an id without one |
| Replies.WorkTells | platform/filexfer/filexfer.go:639-731 | One turn of the write loop adds exactly FileDone if the transfer of the oldest chunk goes from Receiving to Done, exactly FileCancel "receive failed" if it goes to Failed, and nothing otherwise |
| Replies.SenderIsToldExactly | platform/filexfer/filexfer.go:667-688 | One transfer among any others, its stream entered and drained: its sender is told of its end exactly once, by FileDone iff all sources match, else by FileCancel "receive failed" |
| Endings.EndedIsFrozen | platform/filexfer/filexfer.go:657-659 | Once Done, Failed, Declined or Canceled, a transfer is unchanged in every field by any run |
| Endings.CancelStops | platform/filexfer/filexfer.go:535-550 | A cancel from a transfer's own sender, addressed to this node, ends it for good: no further chunk is accepted whatever is queued, its file is closed, and it is Declined iff the reason says so, else Canceled, with that reason; any other cancel changes nothing |
| Endings.DetachStops | platform/filexfer/filexfer.go:225-262 | Detach cancels every transfer under way and closes its file; until the next offer nothing is accepted, written or sent, however many chunks are queued, and nothing is listed |
| Endings.SilentUntilAttached | platform/filexfer/filexfer.go:211-275 | The manager is attached as the last attach or detach says, and sends nothing while it is not |
| Endings.ListsTheNewest | platform/filexfer/filexfer.go:828-833 | In every reachable state the registered transfers are those since the last Detach, and the status order is the newest 32 of them in the order they came |
| Paths.JoinIsRoute | platform/filexfer/filexfer.go:360-360 | Joining a path to a directory is going up so many elements and down the others, however dots and slashes are spread over it |
| Paths.SamePlaceIff | platform/filexfer/filexfer.go:708-709 | Two staged files share a place iff their ids name one directory and their names agree |
| Paths.SameDirIff | platform/filexfer/filexfer.go:360-360 | Two ids that go up equally far name one directory iff they go down the same way |
| Paths.PlainDirsDiffer | platform/filexfer/filexfer.go:360-360 | Ids that are single path elements name one directory iff they are equal |
| Paths.BelowIff | platform/filexfer/filexfer.go:360-360 | A file in the directory an id names lies below the staging directory iff the id, having gone up, comes down the same way |
| Directories.HandlesApart | platform/filexfer/filexfer.go:708-713 | Two transfers hold the same file open iff they share a directory and have come to the same name; never when one is alone in its directory |
| Directories.StepLosesIff | platform/filexfer/filexfer.go:695-731 | Exactly when a step costs a transfer bytes it received: the write loop changes one of its files for another transfer |
| Directories.AlwaysHeldIff | platform/filexfer/filexfer.go:225-418 | So a transfer keeps its bytes on disk throughout a run iff no step does that |
| Directories.RunKeepsHeld | platform/filexfer/filexfer.go:225-418 | It does, over any interleaving, Detach included, if it is alone in its directory and no offer that is taken names that directory |
| Directories.RunKeepsApart | platform/filexfer/filexfer.go:331-387 | All registered transfers do, as long as no taken offer names a directory in use |
| Directories.PlainIdsKeepApart | platform/filexfer/filexfer.go:331-387 | And so in every run from a new manager whose offers have single path elements as ids; then nothing outside the staging directory changes either |
| Directories.OwnIdsArePlain | platform/filexfer/filexfer.go:840-844 | The ids this program makes, hexadecimal digits and a dash, are such |
| Directories.WriteBelowIff | platform/filexfer/filexfer.go:854-863 | A step writes below the staging directory iff the id of the transfer it writes for stays below |
| Directories.RunStaysBelow | platform/filexfer/filexfer.go:854-863 | While all offered ids stay below, no run changes anything outside the staging directory |
| Inboxes.OfferNeverReplaces | platform/filexfer/filexfer.go:371-379 | Until Detach an id stays with the transfer first registered for it; repeated offers are ignored |
| Directories.StagedFilesAreFinal | platform/filexfer/filexfer.go:222-262 | A completely received file is never written again, over any interleaving, Detach included, if its transfer is alone in its directory and no taken offer names that directory |
| Staging.StepChangesIff | platform/filexfer/filexfer.go:695-731 | Exactly when a step changes what is at a path: a write-loop turn on a queued chunk of a registered Receiving transfer whose current file is there, which puts other bytes at the offset it has reached or opens the file with other content |
| Staging.UntouchedIff | platform/filexfer/filexfer.go:222-262 | A run leaves what is at a path alone at every point iff none of its steps is of that kind |
| Directories.StagedNotChanged | platform/filexfer/filexfer.go:721-729 | No step is of that kind for a completely received file of a transfer alone in its directory |
| Staging.ReofferOverwrites | platform/filexfer/filexfer.go:371-387 | Under a free id an offer can come, and its first chunk replaces whatever was staged in its directory under its first name |
| Aliases.EntrantOverwrites | platform/filexfer/filexfer.go:360-387 | An offer that starts in a transfer's directory, under the name of a file that transfer completed, overwrites it |
| Aliases.LostToAlias | platform/filexfer/filexfer.go:360-387 | So a second id of a directory overwrites a finished file of a registered transfer, without any Detach |
| Aliases.SharedHandle | platform/filexfer/filexfer.go:704-713 | And two such transfers can hold the file open at once |
| Aliases.DotSlashAliases | platform/filexfer/filexfer.go:360-387 | Concretely, from a new manager: the ids t and ./t do both |
| Aliases.LostAfterDetach | platform/filexfer/filexfer.go:222-262 | After Detach the same id, offered again, overwrites the finished file |
| Aliases.WrittenBelowIff | platform/filexfer/filexfer.go:854-863 | Where the file of a taken offer is written: below the staging directory iff the id stays below |
| Aliases.DoubleDotEscapes | platform/filexfer/filexfer.go:854-863 | Concretely, from a new manager: the id .. has its file written into the directory above |
| Directories.DoneFilesOnDisk | platform/filexfer/filexfer.go:667-688 | A Done transfer that was alone in its directory, with no taken offer naming it, has every file on disk, complete and in order |
| Inboxes.TotalExact | platform/filexfer/filexfer.go:344-352 | The recorded int64 total is the true sum iff the true sum fits in int64 |
| Inboxes.AutoOverLimitIff | platform/filexfer/filexfer.go:352-368 | Exactly when a taken offer whose true size is above the limit starts without asking: the true size does not fit in int64 and wraps to at most the limit |
| Inboxes.LargestFilesStart | platform/filexfer/filexfer.go:352-368 | Two files of the largest int64 size are such an offer, for every positive limit |
| Inboxes.VettedSizes | platform/filexfer/filexfer.go:345-349 | A vetted offer has only safe names and no negative size |
| Isolation.TransferAmongOthersIsExact | platform/filexfer/filexfer.go:199-210 | One transfer among any others, whatever they do and whatever fails for them: when its stream entered the queue and drained, it is Done iff all sources match, else Failed; when Done, its files are the sources if no other transfer shared its directory |
| Isolation.OwnChunksOnly | platform/filexfer/filexfer.go:440-453 | A transfer processes its own chunks in arrival order and is touched by nothing else |
| Managers.InTransfer.ProcessChunk | platform/filexfer/filexfer.go:639-731 | The in-place update gives exactly the new transfer, disk and reply the safety results speak of |
| Managers.InTransfer.Cancel | platform/filexfer/filexfer.go:535-550 | Closes the file; ends only a pending or receiving transfer, and only for its sender |
| Managers.InTransfer.Snapshot | platform/filexfer/filexfer.go:764-786 | The loop builds one line per file, whose progress follows the position reached |
| Managers.Manager.Inspect | platform/filexfer/filexfer.go:342-353 | The loop rejects an offer with an unsafe name or negative size, else yields the staged names and the int64 total |
| Managers.Manager.HandleOffer | platform/filexfer/filexfer.go:331-387 | Ignored, rejected, duplicate or taken, with the registry, the status order cut to 32 and the accept message; an accept that cannot be sent is reported and the transfer stays |
| Managers.Manager.Answer | platform/filexfer/filexfer.go:390-418 | Unknown and non-pending transfers are refused with their reason, accept may fail on mkdir, and the sender is told of accept or decline; a message that cannot be sent is reported |
| Managers.Manager.OnChunk | platform/filexfer/filexfer.go:432-453 | A chunk is queued only for its addressee, a known id and that transfer's sender |
| Managers.Manager.Work | platform/filexfer/filexfer.go:201-210 | The oldest queued chunk is processed against the transfer it was queued for, and the sender is told how it ended |
| Managers.Manager.OnCanceled | platform/filexfer/filexfer.go:454-463 | A cancel addressed elsewhere or for an unknown id changes nothing |
| Managers.Manager.Detach | platform/filexfer/filexfer.go:225-262 | Every registered transfer is closed, whatever order the map yields them in, and the registry and status order are emptied; queued chunks stay |
| Managers.Manager.Statuses | platform/filexfer/filexfer.go:759-787 | One snapshot per listed registered transfer, in order |
| Managers.StatusesAddUp | platform/filexfer/filexfer.go:763-787 | In every reachable state the per-file progress of a snapshot sums to its done, which never exceeds its total and equals it at Done |
| Managers.StatusesExplain | platform/filexfer/filexfer.go:759-787 | In every reachable state a snapshot carries the offered names and sizes, a reason when the transfer has failed and none before it ends or when it is done, and says a transfer started unasked only if it never waited |
| Outboxes.StreamedOnce | platform/filexfer/filexfer.go:478-503 | Whatever accepts, cancels and detaches arrive, each peer is streamed an offer at most once, and only offers made |
| Outboxes.DetachFailsIff | platform/filexfer/filexfer.go:234-246 | In any run that has not crashed, however many detaches it holds: Detach closes a channel that is already closed iff, since the last Detach, some peer canceled after it had been heard from on a standing offer |
| Outboxes.DetachAfterCancelFails | platform/filexfer/filexfer.go:519-527 | The concrete run: offer, accept, cancel, detach |
| Outboxes.RunRecords | platform/filexfer/filexfer.go:488-533 | In any run that has not crashed: a peer is recorded iff since the last Detach it accepted or canceled a standing offer, and its channel is closed iff it canceled after that |
| Outboxes.StreamedIff | platform/filexfer/filexfer.go:478-503 | A stream to a peer was started iff the peer accepted an offer that stood, also if it had declined or canceled before |
| Outboxes.DeclinedThenStreamed | platform/filexfer/filexfer.go:497-518 | The concrete run: a peer declines, then accepts, is streamed to, and stays recorded as declined |
| Ledgers.RegistryIsHistory | platform/filexfer/filexfer.go:478-533 | In any run that has not crashed the registry of a standing offer is what the messages say: its peers are those heard from, each once, in the order of their first message, and each stands as its first message said, then as its stream or the receiver marked it, a later cancel counting only while it was being sent to |
| Ledgers.StraysAreAnswered | platform/filexfer/filexfer.go:478-487 | The accepts answered with a cancel are exactly those for offers that did not stand, in order |
| Outboxes.Sender.MarkPeer | platform/filexfer/filexfer.go:733-748 | Sets the state of a recorded peer and nothing else |
| Outboxes.Sender.OnAccept | platform/filexfer/filexfer.go:478-503 | The record, the arrival order and the started stream after an accept |
| Outboxes.Sender.OnCanceled | platform/filexfer/filexfer.go:505-534 | A cancel before any accept is recorded as such; a later one closes the channel and stops a sending peer |
| Outboxes.Sender.Detach | platform/filexfer/filexfer.go:225-261 | The nested loops reach a closed channel iff there is one, whatever order the maps yield; otherwise the registry is emptied |
| Captures.Ring.Push | platform/capture/capture_darwin.go:69-78 | The 128-slot ring is a FIFO of capacity 127 that drops when full |
| Captures.Ring.DrainBatch | platform/capture/capture_darwin.go:95-101 | Takes the oldest events, as many as fit, in order, and leaves the rest |
| Captures.Capture.HandleBatch | platform/capture/capture_darwin.go:391-409 | Other events are dispatched at once and in order; the moves become one call after them |
| Captures.Capture.Drain | platform/capture/capture_darwin.go:380-409 | One turn empties the ring, or on an empty wakeup lets an expired wheel detent go |
| Captures.CoalescingIsFaithful | platform/capture/capture_darwin.go:366-409 | Over any interleaving of taps and drains the accepted events are handled once, in push order, and everything but OnMove is as if they had been dispatched one by one |
| Captures.MovesAddUpIff | platform/capture/capture_darwin.go:391-409 | At every point the OnMove deltas over all batches sum to those of the moves handled iff every batch sums to integers that fit in int32 |
| Captures.WholeDeltasAddUp | platform/capture/capture_darwin.go:391-409 | They do when each delta is an integer that a full ring cannot carry beyond int32 |
| Captures.OthersAdds | platform/capture/capture_darwin.go:396-409 | A batch makes no OnMove call besides its own |
| Captures.Int32Exact | platform/capture/capture_darwin.go:407-409 | The truncated sum is the sum iff it is an integer that fits in int32 |
| Handlings.CallsAreMeant | platform/capture/capture_darwin.go:463-553 | Over any interleaving of taps and drains: the button and key calls are those the accepted events stand for, in order - the three buttons, the keys of the table, a modifier only when its bit differs from its last flags event - and the scroll calls are the units the scroll state yields for the wheel events and wakeups alone |
| Handlings.PointerIsWhereItWent | platform/capture/capture_darwin.go:391-409 | The last OnMove call always carries the position of the last move handled, whatever was summed |
| Handlings.OneMoveAlone | platform/capture/capture_darwin.go:391-409 | A batch of one move is that move dispatched by itself |
| Scrolls.ScrollState.FlushDetent | platform/capture/capture_darwin.go:323-331 | Emits the collected detent, if any, exactly once |
| Scrolls.ScrollState.Dispatch | platform/capture/capture_darwin.go:485-531 | The new scroll state and the calls made, for trackpad and wheel events |
| Scrolls.ScrollState.Wake | platform/capture/capture_darwin.go:381-389 | An empty wakeup emits only a detent whose window has expired |
| Scrolls.PixelsConserved | platform/capture/capture_darwin.go:490-508 | Over any mix of events, lines emitted plus the accumulator equal the pixels divided by 200 |
| Scrolls.ResidualBelowOne | platform/capture/capture_darwin.go:494-508 | After an unthrottled step less than one line is held back, of the same sign, iff the accumulator fits in int32 |
| Scrolls.NotchesAreDetents | platform/capture/capture_darwin.go:511-531 | The wheel units emitted, with the one being collected, are the directions of the first events of the 120 ms detents, a detent being defined on the event list alone |
| Scrolls.OneNotchOneUnit | platform/capture/capture_darwin.go:310-331 | One notch on a quiet wheel is, once its window has passed, one unit of size one in the direction of the raw delta, each way |
| Scrolls.TwoNotches | platform/capture/capture_darwin.go:511-531 | Two notches are one unit if less than 120 ms apart and not contradicting each other in either direction, else two |
| Scrolls.LinesArePaced | platform/capture/capture_darwin.go:494-508 | Over any mix of events trackpad lines go out at least 16 ms apart |
| Scrolls.LinesGoOut | platform/capture/capture_darwin.go:494-508 | After 16 ms lines go out iff a whole one, 200 pixels, has collected in either direction |
| Scrolls.IdleFlushesInvisible | platform/capture/capture_darwin.go:381-389 | Idle wakeups never change that sequence, whatever their number and place |
| Clipboards.Clipper.Write | platform/clipboard/clipboard.go:83-91 | A write that succeeds becomes the content and the marker; one that fails changes nothing |
| Clipboards.Clipper.Poll | platform/clipboard/clipboard.go:105-123 | A tick forwards changed readable content unless it is the marked one, which consumes the marker |
| Clipboards.UnreadableIsLost | platform/clipboard/clipboard.go:105-114 | A change that cannot be read is forwarded by no tick, its own or a later one, and leaves the marker |
| Clipboards.Hub.HandleClipboard | core/session/server.go:302-314 | A client's change is written locally and, if that succeeds, pushed once to every other client up to the first failed write; any failure is reported |
| Clipboards.Hub.BroadcastClipboard | core/session/server.go:318-331 | A local change is pushed once to every ready client up to the first failed write, which is reported |
| Clipboards.ReachedIff | core/session/server.go:302-331 | A listed client is written to iff no write before it, or to it, fails |
| Clipboards.NoEchoStorm | platform/clipboard/clipboard.go:93-126 | In a star of any size, over any interleaving with non-empty texts and any failing read or write, a node forwards only what its own user copied, at most once a copy, and deliveries never exceed copies times the other nodes |
| Copying.IsolatedCopyReachesAllIff | platform/clipboard/clipboard.go:93-126 | An isolated copy of a text on a quiet network, in any order of polls and deliveries without failures: it is delivered exactly once to each other node and all clipboards are equal iff the copying node has no marker left over from an earlier delivery of that text; otherwise it stays home. Without any markers none is left |
| Clipboards.WorkRunsOut | platform/clipboard/clipboard.go:100-124 | Without further copies the number of effective polls and deliveries is bounded, whatever fails: the network becomes quiet |
| Clipboards.QuietOrMore | platform/clipboard/clipboard.go:100-124 | It is quiet iff no poll or delivery without failures has anything to do |
| Copying.StaleMarkerSwallowsCopy | platform/clipboard/clipboard.go:83-123 | A concrete run in which a left-over marker swallows a user's copy |
| Copying.EmptyCopyStorms | platform/clipboard/clipboard.go:115-115 | With an empty text the marker does not work: one copy is forwarded any number of times |
| Copying.EmptyCopyNeverQuiet | platform/clipboard/clipboard.go:115-115 | With two nodes or more, once an empty text is copied on a quiet network no order of polls and deliveries without failures brings it to rest |
| Blurs.BoxH | tools/genicons/main.go:229-242 | Each cell becomes the mean of the 2r+1 clamped cells around it in its row |
| Blurs.BoxV | tools/genicons/main.go:244-257 | The same down each column |
| Blurs.WindowSlides | tools/genicons/main.go:237-239 | Adding the entering and subtracting the leaving value keeps the running sum equal to the window sum |
| Blurs.Blur | tools/genicons/main.go:215-227 | Three passes in place, on the source mask itself; a radius that rounds to zero or less changes nothing |
| Blurs.BlurStaysWithin | tools/genicons/main.go:214-227 | Blurring keeps every value between the smallest and largest of the source |
| Blurs.PassIsBoxMean | tools/genicons/main.go:214-214 | Separable: rows then columns is the mean over the square of side 2r+1 |
| Frames.Stream.WriteFrame | core/protocol/frame.go:37-49 | Oversized payloads are refused before anything is written; otherwise header and payload are written, or as many of their bytes as a failing write took |
| Frames.Stream.ReadFrame | core/protocol/frame.go:52-72 | One frame is taken from the stream, or the error for a short read, wrong magic, wrong version or excess length |
| Frames.Stream.ReadFull | core/protocol/frame.go:54-55 | Fills the buffer or consumes what there is, telling an empty stream from a short one |
| Frames.DecodeIffEncoded | core/protocol/frame.go:36-72 | A read yields a payload and a rest iff the stream is that payload's frame followed by that rest |
| Frames.WireFormat | core/protocol/frame.go:1-49 | The bytes of a frame: C, S, version 1, the length with its most significant byte first, the payload of at most 4 MiB |
| Frames.RefusedBecause | core/protocol/frame.go:52-72 | For every stream that is refused, each error iff its cause - no byte, fewer than seven, other magic, other version, an announced length above 4 MiB - and what has been consumed |
| Frames.SentIsFront | core/protocol/frame.go:37-49 | What failed writes took is the front of the frame, as long as the two writes say |
| Frames.PrefixRefused | core/protocol/frame.go:52-72 | Every strict prefix of a frame is refused, the error telling where it was cut |
| Frames.PartialFrameRefused | core/protocol/frame.go:37-72 | However the two writes fail, what they took is read back as the payload iff all of it was taken, and is refused otherwise |
| Frames.StreamRoundTrip | core/protocol/frame.go:36-72 | Frames written one after another are read back as they were, then the stream ends |
| Frames.CutStreamYieldsWholeFrames | core/protocol/frame.go:52-72 | A stream cut anywhere yields exactly its whole frames, and ends cleanly iff the cut is between two |

## Left out

- Fleets.EveryMoveUnderItsLayout: needs unique live hostnames and successful layout and hello-acknowledgement writes; without the latter `Clients.PushReaches` says who gets the arrangement. A connection address is not reused within a run, and each device reports the same screens throughout.
- Clients.MovesLandWhereTheServerMeant: the exact condition assumes that no other device's screen in the arrangement has the id of one of the device's own.
- Inboxes.RunKeeps: offers whose sizes, with one more chunk, do not fit in int64 are excluded; `Inboxes.TotalExact` says what the recorded total is then.
- Directories.StagedFilesAreFinal: false when another transfer comes into the directory (`Aliases.LostToAlias`, `Aliases.LostAfterDetach`), so a condition on the run excludes that; `Staging.UntouchedIff` is the exact condition for one path.
- Paths.JoinIsRoute: absolute slash-separated staging directories on a file system that tells letter case apart; a relative one, Windows separators and symbolic links are not modelled.
- Isolation.TransferAmongOthersIsExact: assumes the disk and clipboard calls for this transfer succeed; those for the others may fail. For the files also that no other transfer comes into its directory.
- Captures.WholeDeltasAddUp: a sufficient condition on single deltas; `Captures.MovesAddUpIff` is the exact one.
- Scrolls.PixelsConserved: over real numbers, without the rounding of float64.
- Blurs.BoxH: over real numbers and a two-dimensional array in place of float64 and a flat slice.
- Copying.IsolatedCopyReachesAllIff: nothing fails while the copy spreads, and a copy of empty text is excluded since it never comes to rest (`Copying.EmptyCopyNeverQuiet`); no poll falls between the platform write and the setting of the marker.
- Clipboards.Hub.HandleClipboard: the clients in question are those the map yields, an input of the call; that a broadcast skips clients not yet ready is part of that input.
- Names.SanitizeAcceptsSafe: slash-separated paths only; characters are Dafny characters, without normalisation or case folding, and Windows path rules are not modelled.
- Sockets, TLS, keepalive and ping, discovery, envelope sequence numbers and the JSON encoding of messages: library behaviour; messages are values on FIFO logs.
- Interleaving below the level of a handler or a lock: each handler is one atomic step, with its callbacks run inside it.
- The server's relaying of file messages between two clients, and files offered through the clipboard: only the transfer itself is modelled.
- `PrepareOutbound`'s file checks and the progress shown for outbound transfers: they would add only easy members. The wire order of accept and cancel replies for unknown offers is a list in `Outboxes`.
- In `Managers` the disk is a field of the manager holding a map from directory and name to bytes; that a directory or permission stands in the way is a success flag of the calls. The clean-up of old staging directories at start-up is not modelled.
- The key table, the modifier bit masks and the handler's optional callbacks: parameters of the capture model or always present.
- The edge-bounce warps of the drain loop and the blocking wait of the ring: timing only.
- Screen names, layout versions and the local conversion `ToLocal`: nothing modelled reads them.
- The web panel, configuration, tray, autostart, Windows capture and injection, and the rest of the icon generator: foreign calls, settings and drawing constants.
