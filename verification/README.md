# Verification of the orbit stream service

A Dafny 4.11 model of the stateful and arithmetic parts of the stream service, and proofs
about it. `dafny verify dfyconfig.toml` checks all of it.

| area | files |
|---|---|
| Classroom SSRC switching: header rewriting, slots, rooms | `SwitchContext.dfy`, `RoomState.dfy`, `RoomProtocol.dfy`, `RoomSafety.dfy`, `RoomHistory.dfy`, `RoomDelivery.dfy`, `ClassRoom.dfy` |
| SDP and ICE candidates, printed and parsed | `SdpText.dfy`, `Candidates.dfy`, `SdpState.dfy`, `SdpPrint.dfy`, `SdpLines.dfy`, `SdpEffects.dfy`, `SdpClean.dfy`, `SdpSections.dfy`, `SdpCodecs.dfy`, `SdpRoundTrip.dfy`, `SdpTheorems.dfy`, `SdpFields.dfy`, `SdpLineWords.dfy`, `SdpOffers.dfy`, `SdpMediaLines.dfy`, `SdpSample.dfy`, `SdpInfo.dfy` |
| Loss statistics, receive and send side | `ReceiveLoss.dfy`, `ReceiveHistory.dfy`, `SendLoss.dfy`, `SendHistory.dfy` |
| Fixed-point audio energy | `AudioEnergy.dfy` |
| Record files, blocking queue, string splitting | `RecordIO.dfy`, `ProductQueue.dfy`, `StrUtil.dfy` |
| Session list, contacts index, FEC numbering | `SessionInfo.dfy`, `ContactsDB.dfy`, `FecNumbers.dfy` |
| 16- and 32-bit integers, shared facts | `Widths.dfy`, `Common.dfy` |

Where the C++ updates objects step by step there is a class with the same fields and
methods; each method is proved equal to a function of the old state, and the theorems are
about that function over all inputs, runs or interleavings. `RoomDelivery`, `SdpOffers`,
`ReceiveHistory`, `SendHistory` and the last parts of `ContactsDB` and `SessionInfo` say what
a run leaves from its steps, lines, packets, reports or calls alone.

## Where the code does not do what it is meant to do

- `orbit/classroom_plugin.cc:136-148` describes a base number that is unset after a link.
  The 16-bit field is compared with -1 after promotion to int, so the test never succeeds.
  The model does what the code does; the unbounded counter the comments describe is the
  reference. `SequenceFollowsCounterIff` says when they agree, and `SequenceRefinesJumps` what
  the numbers are instead: at a link they jump by the first source number and two. A receiver
  is sent back, or gets a number twice, whenever a source opens its link with a number from
  32766 to 65534 (`NumbersRiseIff`; `StepsBack` is an example). For timestamps the base does
  work, except after a link opened by a packet that carries the unset marker 2^32 - 1 itself
  (`TimestampFollowsCounterIff`).
- A participant has five slots for the others. Relaying is sure to succeed only in a room that
  never has more than six participants with an offer; with seven it fails an assertion for
  somebody (`AlwaysRelaysIff`). Unique links, contexts and the video map hold in any room.
- The bundle tags of a description come back from its text only if there are at most nine
  (`orbit/sdp_info.cc:812-827` splits the group line at most ten times). With more than 255
  tags the loops with an 8-bit counter never end: the parser model is then undefined.
- A bundle description prints its video candidates in both sections, so they are read twice.
- The profile is read as SAVPF whatever was printed, and the retransmission and extended SSRCs
  are read only as a stand-in for a missing video SSRC.
- A parameter line is saved in every codec read so far that has its payload type. CN/48000
  and H264, and across the media only these two, share one (107), and the audio section is
  read first: CN/48000 comes back with the parameters printed for H264, the minimal bit rate
  among them, while H264 gets none of CN/48000's. The feedback lines of H264 likewise end up in
  both (`FeedbackReadBack`).
- An offered codec gets the payload type of the internal table, but its parameter and feedback
  lines are looked up by the number the offer uses (`orbit/sdp_info.cc:946-1003`). With another
  number they are lost: opus as 109 becomes 111 without parameters (`OpusIsRenumbered`).
- The types on the video media line are spaced by a counter that is set while parsing; with two
  video codecs or more and a counter that is behind, some run together (`VideoLineListsIff`).
- The printed `a=fmtp` line does have the payload type where the parser looks for it
  (`orbit/sdp_info.cc:979-1003`), so parameters are part of the round trip.
- A receive window takes 0 for "no number yet". Each packet with number 0 that comes before
  any other since the last window closed is counted and not in range: the loss reported at
  the end is the missing numbers less these zeros. With one zero and nothing missing that is
  2^32 - 1, with one zero and one number missing it is 0.
- Numbers after the 16-bit wrap-around are not above the largest one, so they are ignored
  unless they fill a gap in time. Once 65535 is in and the gaps are filled or too old the window
  stays as it is, and it never closes again.
- One sample of -32768 followed by six of 16383 overflows the audio energy.
- The contacts search refuses the empty phone, which uploads accept.

## Assumptions

- Rooms: participants are distinct objects with distinct stream ids; the SSRC of an offer is
  not 0, belongs to nobody else, and is offered once per stream with five distinct downstream
  SSRCs; a stream is linked before it becomes active and sends video. This is the order of
  `orbit/transport_delegate.cc:426-453` with `orbit/classroom_plugin.cc:411-437`.
- Contexts of a switch are values in a map keyed by downstream SSRC, as in the C++.
- Random numbers, clocks, flags and the packets an FEC producer has ready are parameters.
- zlib is a pair of functions with their round-trip law on the records at hand; LevelDB is a
  pair of maps; protobuf messages are their bytes.
- `std::sort` is an insertion sort with the same comparator. `std::map` is a map, or a list of
  entries in key order where its iteration order is printed.
- Fields that a constructor leaves unset are parameters (the two directions of an `SdpInfo`)
  or 0 (the fields of a candidate without a related address).
- Reading past the end of a vector of pieces, which C++ leaves undefined, has an outcome of
  its own, and the theorems show that printed texts never lead to it.

## Model

| member | source | states |
|---|---|---|
| SwitchContext.TimestampFollowsCounterIff | orbit/classroom_plugin.cc:136-162 | over any run of links and packets the rewritten timestamp is the unbounded counter (previous + 2880 at a link, input differences inside) modulo 2^32 throughout, if and only if every link opened by a packet with the unset marker as its timestamp carries only the marker |
| SwitchContext.FirstTwoTimestamps | orbit/classroom_plugin.cc:150-157 | after a link the distance of the first two timestamps is kept exactly when the first is not the marker, or both are the same |
| SwitchContext.SeqBaseNeverSet | orbit/classroom_plugin.cc:149-153 | the comparison of the 16-bit base with -1 never succeeds: the base is 65535 in every state |
| SwitchContext.SeqDistanceKept | orbit/classroom_plugin.cc:145-162 | for any two packets of one link output and input sequence differences agree modulo 2^16, whatever the numbers |
| SwitchContext.FirstNumberAfterLink | orbit/classroom_plugin.cc:75-88 | across a link the number continues at previous + 1 if and only if the source starts at 65535, and repeats if and only if it starts at 65534 |
| SwitchContext.SequenceFollowsCounterIff | orbit/classroom_plugin.cc:136-162 | a whole run agrees with the documented unbounded counter if and only if every source opens its link with 65535 |
| SwitchContext.RepeatedNumber | orbit/classroom_plugin.cc:149-153 | a concrete run in which a number repeats where the counter moves on |
| SwitchContext.SequenceRefinesJumps | orbit/classroom_plugin.cc:145-162 | over every run the number the code writes is, in 16 bits, a counter that goes on at each link by the first source number and two |
| SwitchContext.NumbersRiseIff | orbit/classroom_plugin.cc:75-162 | over every run, whatever the sources send: a receiver that extends the 16-bit numbers sees each packet ahead of all earlier ones, across any links, if and only if inside a link each source number is ahead of the one before by less than half a turn, and every link after the first packet is opened with 65535 or a number up to 32765 |
| SwitchContext.SeenAsCountedIff | orbit/classroom_plugin.h:24-58 | over every run of sources that go ahead inside their links the receiver sees the distances of the documented counter if and only if every link after the first packet is opened with 65535 |
| SwitchContext.StepsBack | orbit/classroom_plugin.cc:149-153 | a source that opens its link with 40000 sends the receiver back by 25534 |
| RoomState.LoopLinksAll | orbit/classroom_plugin.cc:380-409 | the pairwise loop gives every participant the links that linking each against all others, one at a time, would give |
| RoomState.LoopMuxesAll | orbit/classroom_plugin.cc:439-465 | forwarding in a loop changes each receiver independently of the others |
| RoomProtocol.LinkPlacesIff | orbit/classroom_plugin.cc:67-92 | a link finds a slot if and only if one is free or already holds the SSRC |
| RoomProtocol.LinkPlaces | orbit/classroom_plugin.cc:67-102 | a link goes to the first slot that is free or already holds the SSRC; the SSRC leaves any other slot, and nothing else changes |
| RoomProtocol.StepKeeps | orbit/classroom_plugin.cc:67-130 | in a room of any size every step (add, offer, link, activate, remove, publish, video) keeps unique owners, good tables (no SSRC in two slots, contexts that exist and name source and stream) and the status of the linked and active; and the full links among the linked where at most six have offered |
| RoomProtocol.ReachableGood | orbit/transport_delegate.cc:426-453 | all but the full links hold in every reachable state of every room, the full links too in a room that never has more than six participants with an offer |
| RoomSafety.OneSlotPerSender | orbit/classroom_plugin.cc:67-102 | in a room that never has more than six offers an active receiver has exactly one slot for each other active sender, and its context names SSRC and stream |
| RoomSafety.RelayNeverFails | orbit/classroom_plugin.cc:104-184 | in such a room no assertion of the header rewriting fails for a forwarded video packet; each receiver gets it under its own downstream SSRC for that sender |
| RoomSafety.RewritesIffLinked | orbit/classroom_plugin.cc:104-163 | in every reachable state of a room of any size the rewriting for a receiver succeeds if and only if one of its slots is linked to the sender |
| RoomSafety.SeventhParticipantFails | orbit/classroom_plugin.cc:67-130 | in every reachable state with more than six offers each participant that has offered misses some other sender, and relaying that one's video to it trips an assertion |
| RoomSafety.AlwaysRelaysIff | orbit/classroom_plugin.cc:439-465 | over all runs of a room held to a number of offers relaying never fails if and only if that number is at most six; a run of seven students shows the failure |
| RoomSafety.MissedLinkStays | orbit/classroom_plugin.cc:300-327 | a missed link is not made up for when somebody else leaves |
| RoomSafety.VideoMapEntries | orbit/classroom_plugin.cc:213-230 | the entries of the stream video map and the occupied slots correspond one to one, at position + 1, in order |
| RoomSafety.VideoMapListsLinkedStreams | orbit/classroom_plugin.cc:213-230 | in every reachable state of a room of any size the map lists each linked stream once and no other |
| RoomHistory.ContextsAreRuns | orbit/classroom_plugin.cc:67-163 | in every reachable room, of any size, each context of each participant holds the numbers of Run over the links and packets its downstream SSRC has seen |
| RoomHistory.RelayedNumbers | orbit/classroom_plugin.cc:104-184 | a packet relayed in a reachable room carries the sequence number of JumpCounter over the history of its downstream SSRC, and the documented timestamp unless a marker spoils that history |
| RoomDelivery.RoomIsAsTold | orbit/classroom_plugin.cc:251-327 | in every reachable room of any size the order, the masters, the published, the active and the SSRCs of each participant are what the steps (add, offer, activate, remove, publish) have said last |
| RoomDelivery.PacketGoesToAudience | orbit/classroom_plugin.cc:439-465 | a video packet that can be relayed goes to exactly the active others where the sender or the receiver joined as a teacher or the sender is published, told from the steps alone: to each once, in the order of joining, with its payload unchanged, under an SSRC the receiver has offered |
| ClassRoom.ClassRoomPlugin.SetExtendedVideoSsrcs | orbit/classroom_plugin.cc:30-36 | the offered downstream SSRCs are appended to the slots, all free; nothing else changes |
| ClassRoom.ClassRoomPlugin.UnlinkToSsrc | orbit/classroom_plugin.cc:94-102 | the in-place loop computes UnlinkFrom |
| ClassRoom.ClassRoomPlugin.LinkToSsrc | orbit/classroom_plugin.cc:67-92 | unlinking, slot search and context renewal compute LinkTo |
| ClassRoom.ClassRoomPlugin.RewriteRtpHeader | orbit/classroom_plugin.cc:104-163 | the rewritten header and context are those of Rewrite, and None where an assertion would fail |
| ClassRoom.ClassRoomPlugin.RelayRtpPacket | orbit/classroom_plugin.cc:165-184 | what is sent to one receiver and the new state |
| ClassRoom.ClassRoomPlugin.GetStreamVideoMap | orbit/classroom_plugin.cc:213-230 | the loop lists VideoMap, and fails exactly when a linked slot has no context |
| ClassRoom.Room.AddParticipant | orbit/classroom_plugin.cc:251-275 | the plugin is appended and entered by its role, with nobody else changed; the participants stay distinct if and only if it was not there |
| ClassRoom.Room.RemoveParticipant | orbit/classroom_plugin.cc:300-327 | the leaver is deactivated and erased and everybody else unlinked from it; a plugin that is not in the room changes only the links to its SSRC and the sets with its id |
| ClassRoom.Room.LinkSsrcsToParticipants | orbit/classroom_plugin.cc:380-409 | the linking loop of a ready stream computes LinkedAll; it fails, with nothing changed, if and only if nobody has the stream id |
| ClassRoom.Room.PublishStreams | orbit/classroom_plugin.h:165-172 | the published set is replaced |
| ClassRoom.Room.MuxRtpPacket | orbit/classroom_plugin.cc:439-465 | which receivers are sent which packet, in order, and the state after, or failure where an assertion fails |
| ClassRoom.Room.GetStreamVideoMap | orbit/classroom_plugin.cc:482-494 | the map of the named participant |
| Candidates.FromStringOfToString | orbit/sdp_info.h:131-196 | FromString recovers every printed field of a candidate with nonempty whitespace-free tokens and touches no other |
| Candidates.CandidateWords | orbit/sdp_info.h:161-196 | the printed candidate, word for word |
| Candidates.NumberRead | orbit/sdp_info.h:131-159 | blanks and digits are read as a number below the bound; a larger one leaves the largest and fails the stream |
| Candidates.FromLineRestoresIff | orbit/sdp_info.cc:1114-1182 | the SDP parser recovers the printed candidate if and only if it is a UDP one whose tokens have no colon |
| Candidates.OtherProtocolsIgnored | orbit/sdp_info.cc:1122-1127 | a candidate of another protocol is passed over |
| Candidates.ParsersAgreeIff | orbit/sdp_info.cc:33-51 | splitOneOf with processCandidate agrees with FromString on a printed UDP candidate if and only if it has no colon |
| SdpText.SplitOneOf | orbit/sdp_info.cc:33-51 | the loop computes the pieces of at most maxSplits cuts, with no empty last piece |
| SdpText.SplitIsTheOnlyCut | orbit/sdp_info.cc:33-51 | for every text, delimiters and limit the pieces are the only list that lies in the text in order, delimiter-free but for what the limit leaves over, with one delimiter behind each but a nonempty last one; so empty pieces between neighbouring delimiters count, none at the end |
| SdpText.OccursIff | orbit/sdp_info.cc:743-762 | the tag test is true if and only if the tag stands somewhere in the line |
| SdpText.SplitSpaced | orbit/sdp_info.cc:33-51 | words written with spaces come apart unless the limit is reached; then exactly limit + 1 pieces are left |
| SdpText.PiecesAreFree | orbit/sdp_info.cc:33-51 | without a limit no piece contains a delimiter |
| SdpText.ToUintOfDec | orbit/sdp_info.cc:912-943 | strtoul reads back any printed unsigned int |
| SdpText.ToUintReads | orbit/sdp_info.cc:934-943 | blanks, a sign, digits and anything behind them are read as that number in 32 bits, counted down from 2^32 after a minus, and as 2^32 - 1 from 2^64 on |
| SdpText.LinesOfUnlines | orbit/sdp_info.cc:742-742 | getline gives back the printed lines |
| SdpText.LinesOfText | orbit/sdp_info.cc:742-742 | any text is read as its lines, what follows the last line end as one more unless it is empty |
| SdpLines.ScanOf | orbit/sdp_info.cc:743-762 | a printed line contains its own tag and no other, so exactly one branch of the parser sees it |
| SdpEffects.Dispatch | orbit/sdp_info.cc:743-1013 | with one tag the twenty tests of the loop body come down to the one handler |
| SdpEffects.LineEffect | orbit/sdp_info.cc:742-1013 | the loop body on the text of a printed line has the effect of the line's structure |
| SdpEffects.ProcessOfText | orbit/sdp_info.cc:728-1058 | reading printed text is replaying the structure of its lines and finishing |
| SdpLineWords.LineTold | orbit/sdp_info.cc:742-1013 | the text of a clean line changes exactly these fields of the object: media, credentials, fingerprint, direction, mid, rtcp-mux, crypto, parameter, feedback, SSRC and bandwidth lines; anything but an audio section counts as video for credentials and directions |
| SdpLineWords.GroupLine | orbit/sdp_info.cc:812-827 | a group line with up to nine tags adds them without a medium, and makes the description a bundle if and only if it is named BUNDLE or one was before |
| SdpLineWords.MidNeverEnds | orbit/sdp_info.cc:897-910 | with 256 tags or more the 8-bit loop over them never gets past them |
| SdpClean.ItemsClean | orbit/sdp_info.cc:302-566 | everything printed of a description with clean tokens is readable line by line, with at most one group line |
| SdpSections.ReplayTransport | orbit/sdp_info.cc:356-404 | credentials, fingerprint, direction, tags, rtcp-mux and keys of a section are read back |
| SdpCodecs.InternalTableIsUnique | orbit/sdp_info.cc:100-245 | no two codecs of the internal table share name and clock rate |
| SdpCodecs.ReplayPayloads | orbit/sdp_info.cc:407-427 | the rtpmap, fmtp and rtcp-fb lines of a section append its codecs and map their payload types to themselves |
| SdpCodecs.ReadListBares | orbit/sdp_info.cc:934-1003 | the codecs of a section are read in order, whatever payload types they share |
| SdpCodecs.ReadListValues | orbit/sdp_info.cc:979-1003 | the parameter values of every codec of a section after its lines are read, whatever payload types are shared |
| SdpCodecs.ReadListIs | orbit/sdp_info.cc:979-1003 | with distinct payload types every codec gets exactly its own parameters |
| SdpCodecs.InsertKeepsOrder | orbit/sdp_info.cc:995-1001 | the parameters of a codec stay in the order of their keys, and saving one adds no other key |
| SdpCodecs.MapPairs | orbit/sdp_info.cc:1042-1055 | mapping the saved feedback lines gives every codec the feedback of its payload type, in order |
| SdpTheorems.ReadBack | orbit/sdp_info.cc:302-566 | the complete object state after reading what was printed, for every description with clean tokens and codecs of a table |
| SdpTheorems.RoundTrip | orbit/sdp_info.cc:728-1058 | printing and reading back recovers flags, fingerprint, directions, ICE credentials, SSRCs and the codec list; the profile is SAVPF |
| SdpTheorems.TagsRestored | orbit/sdp_info.cc:897-910 | up to nine bundle tags come back, each with the medium of the section that announces it |
| SdpTheorems.BundleTagsRecoveredIff | orbit/sdp_info.cc:812-827 | the bundle tags come back if and only if there are at most nine |
| SdpTheorems.CodecsRestored | orbit/sdp_info.cc:934-1003 | with distinct payload types the codecs come back with their parameters, the video ones with their feedback |
| SdpTheorems.ParametersReadBack | orbit/sdp_info.cc:979-1003 | whatever payload types are shared, every codec comes back with, for each key, the last value printed for its payload type by itself or a codec after it, and with no other key |
| SdpTheorems.BitrateSharedIff | orbit/sdp_info.cc:979-1003 | an audio codec comes back with the printed bit rate when a printed video codec has its payload type, and otherwise with what the audio codecs say themselves: if they name none, it has one if and only if a video codec shares its type |
| SdpTheorems.SharedTypesAre | orbit/sdp_info.cc:100-245 | of all audio and video codecs of the internal table exactly CN/48000 and H264 share a payload type |
| SdpTheorems.FeedbackReadBack | orbit/sdp_info.cc:1042-1055 | whatever payload types are shared, every codec comes back with exactly the feedback printed for its payload type, that of other codecs included |
| SdpTheorems.ComfortNoiseGetsVideo | orbit/sdp_info.cc:728-1058 | a description offering CN/48000 with neither parameters nor feedback, and H264 with feedback, comes back from its text with the bit rate parameter and the feedback in CN/48000 |
| SdpTheorems.VideoSsrcRecoveredIff | orbit/sdp_info.cc:912-922 | the video SSRC comes back if and only if it is set or no other video SSRC is printed |
| SdpTheorems.CandidatesDoubledIff | orbit/sdp_info.cc:351-356 | the number of candidates is kept if and only if the description is no bundle or has no video candidate; otherwise each video candidate counts twice |
| SdpFields.FieldsReadBack | orbit/sdp_info.cc:728-1058 | of every clean description both sides, the UDP candidates with the credentials of their medium, the keys, the bandwidth and the payload type maps (each type to itself) come back, field by field |
| SdpOffers.RtpmapLine | orbit/sdp_info.cc:934-973 | an rtpmap line with any payload number, and anything behind the clock rate: a codec of the table is appended with the table's payload type and channels and the section's medium, its section counts one more, outIn leads from the number to the type and inOut back; any other codec changes nothing |
| SdpOffers.TextIsReadAsTold | orbit/sdp_info.cc:728-1058 | a text of any clean lines in any order, with any payload numbers: accepted if and only if a line names a user, with exactly the codecs, maps, counts, parameters and feedback that the lines tell |
| SdpOffers.OpusIsRenumbered | orbit/sdp_info.cc:946-1003 | opus offered as 109 is read as 111, and the parameter and the feedback offered for 109 are lost; PCMA, which the table lacks, is passed over |
| SdpOffers.SsrcGroupLine | orbit/sdp_info.cc:923-932 | a group line sets the retransmission SSRC to its second number in a video section, and nothing anywhere else |
| SdpSample.SampleText | orbit/sdp_info.cc:302-566 | the text of a description that uses every kind of line, line by line |
| SdpSample.BareText | orbit/sdp_info.cc:302-566 | the text of a description without any of the options, line by line |
| SdpMediaLines.AudioLineLists | orbit/sdp_info.cc:333-345 | the audio media line comes apart into the payload types of the audio codecs, in order |
| SdpMediaLines.VideoLineListsIff | orbit/sdp_info.cc:447-454 | the video media line comes apart into those of the video codecs if and only if there is at most one or the codec counter is not behind |
| SdpInfos.SdpInfo.GetSdp | orbit/sdp_info.cc:302-566 | the appending loops print exactly the lines of Items, and the only change is the audio SSRC 0 becoming 44444 |
| SdpInfos.SdpInfo.ProcessSdp | orbit/sdp_info.cc:728-1058 | the getline loop and the loops inside and after it compute Process |
| SdpInfos.SdpInfo.ListAudioTypes | orbit/sdp_info.cc:333-345 | the payload types of the audio media line |
| SdpInfos.SdpInfo.ListVideoTypes | orbit/sdp_info.cc:447-454 | the payload types of the video media line |
| SdpInfos.SdpInfo.MarkTags | orbit/sdp_info.cc:897-910 | every tag with the id gets the medium, and no other changes |
| SdpInfos.SdpInfo.FindCodec | orbit/sdp_info.cc:946-964 | the search through the internal table |
| SdpInfos.SdpInfo.SaveParameter | orbit/sdp_info.cc:979-1003 | the parameter is saved in every codec of the payload type |
| SdpInfos.SdpInfo.GiveCredentials | orbit/sdp_info.cc:1030-1040 | every candidate gets the bundle flag and the credentials of its medium |
| SdpInfos.SdpInfo.GiveFeedback | orbit/sdp_info.cc:1042-1055 | the loop over the saved feedback lines |
| ReceiveLoss.StepKeeps | orbit/network_status.cc:714-811 | every packet keeps the window right: count is the number of accepted entries, and apart from the opening zeros these are distinct, in range, and with the gaps cover the range |
| ReceiveLoss.AdmitKeeps | orbit/network_status.cc:730-768 | an accepted packet keeps accepted plus gap numbers covering the range |
| ReceiveLoss.MissingCount | orbit/network_status.cc:771-777 | expected minus received is the number of numbers in range never accepted, and does not underflow |
| ReceiveLoss.CloseReports | orbit/network_status.cc:774-811 | a closing window reports the numbers of its range never accepted, less its opening zeros, in 32 bits, and shows that percentage |
| ReceiveLoss.ReportRightIff | orbit/network_status.cc:714-811 | in every run a report is right if and only if no packet with number 0 came before any other since the last window closed (or a multiple of 2^32 of them did), and it underflows if and only if more such packets came than numbers are missing |
| ReceiveLoss.ZeroOpensUnderflow | orbit/network_status.cc:719-729 | the packets 0, 1, 2 report 2^32 - 1 losses |
| ReceiveLoss.ZeroHidesLoss | orbit/network_status.cc:719-729 | the packets 0, 1, 3 report none |
| ReceiveLoss.OldChangesIff | orbit/network_status.cc:747-768 | a number not above the largest so far changes an open window if and only if it fills a gap in time |
| ReceiveLoss.WrapAroundFreezes | orbit/network_status.cc:730-768 | once 65535 is in and the deadlines of the open gaps have passed, no run of packets changes the window any more, so it never closes |
| ReceiveLoss.LossesBalance | orbit/network_status.cc:774-811 | over every run the cumulative counter is the missing numbers less the opening zeros modulo 2^32, and lost plus accepted is the total expected: modulo 2^32, and exactly when no closed window was opened by 0 |
| ReceiveLoss.CombinedWithinHundredIff | orbit/network_status.cc:689-708 | over every run of both media the combined percentage is at most 100 if and only if the last closed windows missed at least as many numbers as they took opening zeros |
| ReceiveLoss.CombinedFractionBound | orbit/network_status.cc:689-708 | over every run of both media without a closed window opened by 0 the combined percentage never exceeds 100 |
| ReceiveLoss.CombinedFractionBetween | orbit/network_status.cc:689-708 | in such a run it lies between the percentages of the two media |
| ReceiveHistory.RunIsAsTold | orbit/network_status.cc:714-811 | after every run the window is what the packets since the last closing tell: the opening number, the highest, the ones taken, the gaps and who skipped them, and when it began |
| ReceiveHistory.ClosesAsTold | orbit/network_status.cc:771-811 | over every run a packet closes a window if and only if it is taken more than 3000 after the last closing, or else the first packet, and the report is that of the packets in between |
| ReceiveHistory.ClosingsApart | orbit/network_status.cc:771-811 | any two closings of a medium are more than 3000 apart |
| ReceiveHistory.StatisticsAreTold | orbit/network_status.cc:774-811 | after every run a medium shows the range and the loss of the last closed window, and the losses of all of them in 32 bits |
| ReceiveHistory.PercentageIsTold | orbit/network_status.cc:689-708 | over packets of both media in any order each window sees its own, and the combined percentage is that of the two last reports together |
| ReceiveLoss.Medium.Statistic | orbit/network_status.cc:714-811 | the method on the fields of one medium computes Step |
| ReceiveLoss.NetworkStatus.StatisticRecvFractionLost | orbit/network_status.cc:689-708 | both media and the combined percentage |
| SendLoss.IncrementsTelescope | orbit/network_status.cc:59-80 | over any run the applied sequence and loss increments sum up to the last applied report modulo 2^32 |
| SendLoss.IncrementsSumUp | orbit/network_status.cc:59-80 | with reports that do not fall they sum up exactly |
| SendLoss.FirstReportWaits | orbit/network_status.cc:62-67 | the first report only starts the interval |
| SendLoss.RunIsSane | orbit/network_status.cc:68-73 | after any run the percentage shown is that of the last step, where it counts packets and no negative loss |
| SendLoss.TotalBetween | orbit/network_status.cc:452-472 | the percentage over all sources is at most 100 and lies between the smallest and largest one of a source with a positive step |
| SendLoss.TotalOfRunsBetween | orbit/network_status.cc:452-472 | for any number of sources, each after any run of reports whose losses grow no faster than their packets, the percentage over all is at most 100 and between the smallest and largest one shown by a source with a positive step |
| SendLoss.ShownPercent | orbit/network_status.cc:70-73 | the percentages compared are the ones the sources show |
| SendHistory.RunIsAsTold | orbit/network_status.cc:59-80 | after every run the numbers and the time are those of the last applied report, the steps lead to it from the one before, and the percentage is that of the last step that has one; a report is applied if and only if it comes at least 3000 after the one applied before it, or after the first of all |
| SendHistory.TotalsAreTold | orbit/network_status.cc:452-472 | over any number of sources, each after any run, the totals are the sums of the last steps and losses of the applied reports, and the percentage is theirs, in 32 bits |
| SendLoss.SendPacketsStatus.CalculateSendFractionLost | orbit/network_status.cc:59-80 | the method computes Handle |
| SendLoss.NetworkStatus.UpdateTotalSendFractionLost | orbit/network_status.cc:452-472 | the loop over the sources computes TotalFraction and the cumulative sum |
| AudioEnergy.HeadroomFills | orbit/audio_processing/audio_energy.cc:18-37 | for a > 0 the shift of NormW32 gives 2^30 <= a * 2^t < 2^31 |
| AudioEnergy.HeadroomUnique | orbit/audio_processing/audio_energy.cc:18-37 | no other shift does |
| AudioEnergy.SizeInBitsBounds | orbit/audio_processing/audio_energy.cc:39-53 | n < 2^bits, and one bit less is not enough |
| AudioEnergy.MaxAbsBounds | orbit/audio_processing/audio_energy.cc:58-64 | the accumulated maximum bounds every absolute value if and only if no sample is -32768 |
| AudioEnergy.MaxAbsIsLargest | orbit/audio_processing/audio_energy.cc:58-64 | it is the largest absolute value of the samples that are not -32768, and -1 if there are none |
| AudioEnergy.ShiftSuffices | orbit/audio_processing/audio_energy.cc:55-75 | the chosen shift keeps n scaled squares below 2^31 |
| AudioEnergy.ScaleIsLeast | orbit/audio_processing/audio_energy.cc:55-75 | the scale is the least s with largest square times 2^bits below 2^31 * 2^s, and 0 for silence |
| AudioEnergy.EnergyApproximates | orbit/audio_processing/audio_energy.cc:77-91 | scaled back the energy is the sum of the squares, short of it by less than 2^s a sample |
| AudioEnergy.EnergyFits | orbit/audio_processing/audio_energy.cc:77-91 | for every buffer without -32768, of any length, every partial sum stays in int32 |
| AudioEnergy.MinimumOverflows | orbit/audio_processing/audio_energy.cc:77-91 | one sample of -32768 and six of 16383 sum up to 2684157958, beyond int32 |
| AudioEnergy.NormW32 | orbit/audio_processing/audio_energy.cc:18-37 | the bit tests compute the headroom |
| AudioEnergy.GetSizeInBits | orbit/audio_processing/audio_energy.cc:39-53 | the bit tests compute the number of bits |
| AudioEnergy.GetScalingSquare | orbit/audio_processing/audio_energy.cc:55-75 | the loop computes the scale |
| AudioEnergy.Energy | orbit/audio_processing/audio_energy.cc:77-91 | the accumulation computes the sum of scaled squares in 32 bits, and without -32768 the sum itself |
| RecordIO.PrefixReadsWholeRecords | orbit/base/recordio.h:89-122 | reading any byte prefix of a file of records, compressed or not in any mix, gives exactly the records wholly inside it |
| RecordIO.RoundTrip | orbit/base/recordio.h:39-70 | reading a whole file gives exactly the records written |
| RecordIO.EmptyCompressedText | orbit/base/recordio.h:39-70 | a compressed record comes back if and only if its compressed text is not empty or its payload is |
| RecordIO.FrameBytes | orbit/base/recordio.h:39-70 | the bytes of a frame: the magic number, the two sizes lowest byte first, and the text |
| RecordIO.ReadsBytes | orbit/base/recordio.h:89-122 | what any twenty bytes and the text behind them are read as: nothing without the magic number or with less text than the sizes say |
| RecordIO.RecordWriter.WriteProtocolMessage | orbit/base/recordio.h:39-70 | the writes append one frame |
| RecordIO.RecordReader.ReadProtocolMessage | orbit/base/recordio.h:89-122 | the reads return the next record and move past it, or fail |
| ProductQueue.EveryInterleavingSound | orbit/base/thread_util.h:46-124 | in every interleaving the size respects the limit, taken followed by queued is added, and sleepers sleep only while they must |
| ProductQueue.NoLostWakeup | orbit/base/thread_util.h:46-124 | with an element every consumer can run and take; with space every producer can run and add |
| ProductQueue.NoDeadlock | orbit/base/thread_util.h:46-124 | producers and consumers are never asleep together |
| ProductQueue.FirstInFirstOut | orbit/base/thread_util.h:46-124 | what was taken is an initial part of what was added, and the rest is queued |
| ProductQueue.Queue.AddSection | orbit/base/thread_util.h:46-53 | one locked section of Add |
| ProductQueue.Queue.TryAdd | orbit/base/thread_util.h:54-62 | adds if and only if there is space |
| ProductQueue.Queue.TakeSection | orbit/base/thread_util.h:77-86 | one locked section of Take |
| ProductQueue.Queue.TryTake | orbit/base/thread_util.h:87-99 | takes the first element if and only if there is one |
| SessionInfo.ComparatorIsStrictWeakOrder | orbit/base/session_info.cc:59-74 | what std::sort demands of the comparator |
| SessionInfo.RunKeeps | orbit/base/session_info.cc:304-332 | with a clock that does not go back the list stays sorted, without double ids, at most fifty long, and the current counter is live retained plus live evicted |
| SessionInfo.EvictionTakesDeadFirst | orbit/base/session_info.cc:304-317 | a live session is evicted only when all retained are live, and it is an oldest |
| SessionInfo.RearrangeKeeps | orbit/base/session_info.cc:319-332 | sorting neither loses nor doubles ids nor changes a status |
| SessionInfo.SessionsAreTold | orbit/base/session_info.cc:304-332 | after every run of calls each retained session was added by one of them, with its time and with the status of the calls since; total counts the calls that added, current those less the calls that ended a live one |
| SessionInfo.ListAfter | orbit/base/session_info.cc:304-332 | a new session goes to the front and of fifty others the last is dropped; no other call changes which sessions are retained |
| SessionInfo.SortedMeans | orbit/base/session_info.cc:59-74 | sorted means the live first, of the live the later added first, of the ended the later ended |
| SessionInfo.Manager.AddSession | orbit/base/session_info.cc:304-317 | the new list and counters, or nothing for a known id |
| SessionInfo.Manager.RemoveSession | orbit/base/session_info.cc:319-332 | the session is ended, the list is a sorted rearrangement, and the counter follows |
| StrUtil.PiecesAreRuns | orbit/base/strutil.cc:335-366 | the pieces are the texts of the runs |
| StrUtil.RunsAreMaximal | orbit/base/strutil.cc:335-366 | the runs are maximal delimiter-free nonempty stretches |
| StrUtil.RunsAreOrdered | orbit/base/strutil.cc:335-366 | in the order of the text |
| StrUtil.RunsCover | orbit/base/strutil.cc:335-366 | every character that is no delimiter is in one |
| StrUtil.SplitFast | orbit/base/strutil.cc:339-354 | the one-character path returns the pieces |
| StrUtil.SplitGeneral | orbit/base/strutil.cc:355-366 | the general loop returns the same pieces |
| StrUtil.SplitStringUsing | orbit/base/strutil.cc:368-373 | so does the choice between them, for every string and delimiter |
| StrUtil.SplitAllowEmpty | orbit/base/strutil.cc:386-405 | the loop computes the fields, empty ones included |
| StrUtil.FieldsAreTheOnly | orbit/base/strutil.cc:386-405 | for every text, delimiters and number of cuts the fields are the only list that lies in the text in order with one delimiter between two, and delimiter-free but for what is left over |
| StrUtil.PieceCount | orbit/base/strutil.cc:386-405 | all pieces when 0 are asked for, else at most as many as are asked for, and at least one |
| StrUtil.JoinStrings | orbit/base/strutil.cc:419-451 | the loop computes the join |
| StrUtil.JoinOfSplit | orbit/base/strutil.cc:386-451 | joining what was split gives back the text |
| StrUtil.SplitOfJoin | orbit/base/strutil.cc:386-451 | splitting what was joined gives back the list if and only if it is not empty and free of the delimiter |
| ContactsDB.IndexHoldsUploaders | contacts_server/contacts_db.cc:175-271 | after any run the index entry of a phone holds exactly the uids that ever uploaded it |
| ContactsDB.BooksAreAsTold | contacts_server/contacts_db.cc:66-93 | after any run a uid has a book if and only if it has registered; the book holds the contact of the last registration and the contacts of the last upload since |
| ContactsDB.OwnersAreAsTold | contacts_server/contacts_db.cc:81-91 | after any run the owner of a phone is the uid registered with it last |
| ContactsDB.ScanIsAsTold | contacts_server/contacts_db.cc:175-258 | the phone is in the book of exactly the registered uids whose last upload lists it |
| ContactsDB.FoundAreUploaders | contacts_server/contacts_db.cc:95-123 | the search finds exactly the uids that ever uploaded the phone, and nobody for the empty phone |
| ContactsDB.ScanIsIndexed | contacts_server/contacts_db.cc:175-258 | every book that holds the phone now belongs to one of them |
| ContactsDB.FindMissesNobodyIff | contacts_server/contacts_db.cc:95-123 | the search misses nobody if and only if the phone is not empty or nobody has the empty phone |
| ContactsDB.AscendingIsDuplicateFree | contacts_server/contacts_db.cc:261-271 | an item is duplicate-free |
| ContactsDB.DB.CreateNewUser | contacts_server/contacts_db.cc:66-93 | the new user state, or refusal |
| ContactsDB.DB.FindContactsWithNewUser | contacts_server/contacts_db.cc:95-123 | what the search returns |
| ContactsDB.DB.DuplicateRemove | contacts_server/contacts_db.cc:261-271 | the rebuilt item is the ascending list of its uids |
| ContactsDB.DB.UploadContacts | contacts_server/contacts_db.cc:175-258 | the book is replaced and the index entries grow |
| FecNumbers.NumbersHaveNoGap | orbit/transport_delegate.cc:736-780 | over any run media and FEC packets together are numbered 0, 1, 2, ... in 16 bits |
| FecNumbers.CountersTell | orbit/transport_delegate.cc:736-780 | after any run the counters are the number of media packets, that of FEC packets, and the number given to the last media packet |
| FecNumbers.NumbersRepeatIff | orbit/transport_delegate.cc:1060-1080 | two packets share a number if and only if their distance is a multiple of 65536 |
| FecNumbers.TransportDelegate.SendPacketAsFec | orbit/transport_delegate.cc:736-780 | the method computes Send on its three counters |
| FecNumbers.TransportDelegate.GenerateNextFecSequenceNumber | orbit/transport_delegate.cc:1067-1080 | the start value for FEC packets and the shifted number of a media packet |

## Left out

- SendLoss.TotalBetween: assumes that the products fit 32 bits and that no source lost more in its last step than it sent, because the code's unsigned arithmetic wraps and the percentage is otherwise meaningless.
- SendLoss.TotalOfRunsBetween: assumes that the sum of the last steps times 100 fits 32 bits.
- ReceiveLoss.CombinedWithinHundredIff: is stated below 2^25 opening zeros in the two last closed windows; beyond that the product by 100 wraps.
- SdpTheorems.ReadBack: assumes nonempty tokens without the characters that delimit them and without an equals sign (a parameter key may not end in a, b or m); an empty user name or password makes the parser read past the end of its pieces.
- SdpInfos.SdpInfo.GetSdp: is asked for fewer than 256 bundle tags, since the 8-bit counters of its loops otherwise never end.
- SdpOffers.TextIsReadAsTold: assumes lines of the printed kinds with nonempty tokens without the characters that delimit them, so no carriage returns; RtpmapLine takes any end of the line.
- ReceiveHistory.ClosingsApart: assumes that no clock shows 0, which the code takes for "never".
- Candidates.FromStringOfToString: numbers with a sign, which operator>> would read, are not modelled.
- SendLoss.SendPacketsStatus.CalculateSendFractionLost: the signed product lost * 100 is taken as exact; C++ leaves its overflow undefined.
- SdpInfo: offers and answers built from scratch (createOfferSdp, setOfferSdp), the payload type lookups, which only read the two maps, and ExtractNewCodes, whose regular expressions are the work of a library.
- Candidates are values, not objects: FromString gives the candidate with the new fields.
- ClassRoom: FIR packets, RTCP handling, audio mixing and recording.
- ProductQueue: real time; a timed call may time out whenever it waits.
- ContactsDB: the gRPC service in front of it.
- StatisticSendFractionLost's lookup of the source by SSRC and the other statistics of NetworkStatus (jitter, round trip time, bit rates).
- DTLS, SRTP, ICE negotiation, sockets, GStreamer, Opus, RTMP, FEC encoding, HTTP and gRPC plumbing: external libraries or display.
- The ordering of rtp_sender.h: its comparator is not a strict weak order, so nothing follows about the queue built on it.
- The copies under deprecated/.
