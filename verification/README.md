# Verified model of the SN media player core

This project models five small state-carrying parts of the player and proves what they do
over all inputs and all runs.

* **Program lookup** (`Bytes`, `Sections`, `StreamChoice`, `SectionParser`, `RoundTrip`,
  `PidLookup`, `LookupTheorems`): `ipqam_pid_parser` finds a program in a program association
  section (PAT) and the PCR, video and audio PIDs in its program map section (PMT).
  `Sections` lays both sections out as sections 2.4.4.3 and 2.4.4.8 of ISO/IEC 13818-1 do and
  knows nothing of the parser; `StreamChoice` says which streams are reported without
  mentioning bytes. `SectionParser` has the two byte loops, `RoundTrip` proves that they read
  back what `Sections` lays out, `PidLookup` has the whole run against a demultiplexer that
  answers from a finite script of outcomes, and `LookupTheorems` has the results over all runs.
* **Timer table** (`TimerTable`, `TimerTheorems`): the fixed array of one-shot timers, with
  MAX_TIMER_HANDLER = 8, CHECK_UPLOAD_LOGS = 3 and EVENT_NULL = 4 as in
  `snmediaplayer/.svn/text-base/timer_handler.h.svn-base:9-18`. Each operation holds the one
  mutex throughout and is one step. Pending timers are also described from the sequence of
  operations alone, with no table, and the two descriptions are proved to coincide.
* **Player** (`Player`, `PlayerTheorems`): the volume and mute keys and the end of prebuffering.
* **Settings** (`Settings`): the volume and mute entries of the settings file, a map of strings.
* **Frame header** (`BitFields`, `Mp3Header`, `Mp3Theorems`): the 32-bit MPEG audio header,
  read through the moving cursor of the `bits` macro, and the frame length. `MachineInts` has the
  32-bit integers.

`dafny verify dfyconfig.toml` verifies the project.

## Notes on the code

* The guard of the PMT loop compares `message_length-7` as unsigned. For a section of fewer than
  seven bytes it lets the first entry be read from behind the section
  (`SectionParser.GuardBoundsReadsIff`, with `ShortSectionReadBeyond` as an input); the loop is
  therefore modelled for whole sections of at least seven bytes in a buffer of at least twelve,
  and for those with any content whatever.
* The PMT loop need not report the first stream of a kind: until both kinds are seen a later
  stream overwrites an earlier one of its kind (`StreamChoice.SecondVideoReported`).
  `StreamChoice.FirstReportedIff` and `FirstOfDistinctReportedIff` say exactly when it does, and
  `LookupTheorems.SectionReportsFirstIff` says so of the bytes of a section.
* The mute key that takes mute off leaves `*processed` alone, unlike every other recognised key.
* `prebuf_level += buffersize` wraps in 32 bits, so the number of calls to the end of
  prebuffering is bounded only below the limit `PlayerTheorems.EpisodeLengthIff` states.
* For low sampling rates `parse_mp3header` halves the length of Layer II frames too, which
  ISO/IEC 13818-3 does for Layer III only: `Mp3Theorems.HeaderLengthStandardIff` says exactly when
  the length is the standard's. MPEG 2.5 is in no standard; for it the comparison is with the
  low-rate formula carried on to its rates.
* `read_volume_index` clears its own pointer, not the caller's value, when the read fails.

## Model

| member | source | states |
|---|---|---|
| `LookupTheorems.LookupReportsTheProgram` | snmediaplayer/not_used/RTSP_prv/src/not_used/QAMplayer.c.7405:139-254 | over every run that is brought buffers that begin with a PAT and, on the PID of its first entry for the program, with a PMT, laid out as the standard says and with anything behind them: code 0 is returned only with the PCR, video and audio PIDs of the PMT on the PID of the first entry for the program; code 4 only if the PAT does not list the program |
| `LookupTheorems.LookupSucceedsIff` | snmediaplayer/not_used/RTSP_prv/src/not_used/QAMplayer.c.7405:139-254 | when both buffers arrive without error, again with anything behind the sections, the run returns 0 if the program is listed and 4 if not, and nothing else |
| `LookupTheorems.CodesIff` | snmediaplayer/not_used/RTSP_prv/src/not_used/QAMplayer.c.7405:103-254 | for each return code 0 to 5, and for a run still waiting, the exact demultiplexer behaviour that gives it, in either direction; there is no other outcome |
| `LookupTheorems.PidsWrittenIff` | snmediaplayer/not_used/RTSP_prv/src/not_used/QAMplayer.c.7405:220-247 | the out-pointers keep their values on every code but 0, and on 0 hold the PIDs of the section that was brought |
| `LookupTheorems.RunOrderly` | snmediaplayer/not_used/RTSP_prv/src/not_used/QAMplayer.c.7405:79-254 | in every run, at every moment, at most one PID channel is open; calls obey the open/start/stop/close protocol, an empty buffer is followed by a wait or an error, and every section got is released once with its own length; none is open at the end iff the code is 0, one is otherwise |
| `LookupTheorems.RunReleasesSections` | snmediaplayer/not_used/RTSP_prv/src/not_used/QAMplayer.c.7405:139-248 | the byte counts given back to the message channels over a run are those of the PAT and of the PMT for code 0, of the PAT for 4 and 5, and none for 1 |
| `LookupTheorems.ErrnoByCode` | snmediaplayer/not_used/RTSP_prv/src/not_used/QAMplayer.c.7405:103-206 | the calls of a run leave ERR_VOD_NO_PMT for code 4, ERR_VOD_DEMUX for 1, 2, 3 and 5, and the previous number for 0 |
| `LookupTheorems.OrderlyHoldsAtMostOne` | snmediaplayer/not_used/RTSP_prv/src/not_used/QAMplayer.c.7405:79-253 | any call log accepted by the protocol holds as many channels as its final state says: none or one |
| `LookupTheorems.AwaitOrderly` | snmediaplayer/not_used/RTSP_prv/src/not_used/QAMplayer.c.7405:186-212 | however often a loop waits and retries, it waits or sets an error after every empty buffer and leaves the channel running with at most the one section it brought to be released |
| `PidLookup.AwaitIff` | snmediaplayer/not_used/RTSP_prv/src/not_used/QAMplayer.c.7405:108-132 | a message loop ends on the first outcome that is not an empty buffer followed by a successful wait: with that section, with 2, with 3, or not at all |
| `PidLookup.AwaitCalls` | snmediaplayer/not_used/RTSP_prv/src/not_used/QAMplayer.c.7405:108-132 | the calls of a message loop after any number of retries, in order: ask and wait for each retry, then the calls of the outcome that ends it |
| `PidLookup.AwaitWaits` | snmediaplayer/not_used/RTSP_prv/src/not_used/QAMplayer.c.7405:122-130 | a loop waits exactly once for every retry, and once more when it ends on a failed wait |
| `PidLookup.IpqamPidParser` | snmediaplayer/not_used/RTSP_prv/src/not_used/QAMplayer.c.7405:60-255 | the imperative run: its code, out-pointers, error number and complete log of Nexus calls are those of the run function the theorems are about |
| `PidLookup.ParsePat` | snmediaplayer/not_used/RTSP_prv/src/not_used/QAMplayer.c.7405:79-170 | first half of the run, up to the first channel being closed or a code from 1 to 4 |
| `PidLookup.ParsePmt` | snmediaplayer/not_used/RTSP_prv/src/not_used/QAMplayer.c.7405:174-254 | second half of the run, from the second channel being opened |
| `PidLookup.Nexus.AwaitSection` | snmediaplayer/not_used/RTSP_prv/src/not_used/QAMplayer.c.7405:186-212 | the get-buffer/wait/retry loop, with its calls and error number |
| `RoundTrip.PmtRoundTrip` | snmediaplayer/not_used/RTSP_prv/src/not_used/QAMplayer.c.7405:215-246 | walking a PMT serialized from any stream list, descriptors, reserved bits and CRC meets precisely its entries, each at the offset where it starts, with its type and PID, and reads back its PCR PID |
| `RoundTrip.PmtReports` | snmediaplayer/not_used/RTSP_prv/src/not_used/QAMplayer.c.7405:215-247 | the PIDs reported for a serialized PMT are the choice made on its stream list; descriptors, program information, reserved bits, header and CRC have no effect |
| `RoundTrip.GuardIffBeforeCrc` | snmediaplayer/not_used/RTSP_prv/src/not_used/QAMplayer.c.7405:224 | at an entry start or at the CRC, `byte_offset < message_length-7` holds iff the CRC is not reached |
| `RoundTrip.PatRoundTrip` | snmediaplayer/not_used/RTSP_prv/src/not_used/QAMplayer.c.7405:143-147 | a serialized list of n programs gives exactly n candidates, the list itself in order |
| `RoundTrip.OffsetsDoNotMatter` | snmediaplayer/not_used/RTSP_prv/src/not_used/QAMplayer.c.7405:222-247 | two lists with the same types and PIDs at different offsets are reported alike |
| `SectionParser.FindPmtPid` | snmediaplayer/not_used/RTSP_prv/src/not_used/QAMplayer.c.7405:143-157 | the PAT loop with its early exit returns the PID of the first candidate for the program, or -1 |
| `SectionParser.FirstMatch` | snmediaplayer/not_used/RTSP_prv/src/not_used/QAMplayer.c.7405:143-157 | the PID belongs to a candidate of the program before which there is none, or is -1 and there is none |
| `SectionParser.PatTrailingIgnored` | snmediaplayer/not_used/RTSP_prv/src/not_used/QAMplayer.c.7405:139-159 | bytes behind any PAT section in its buffer have no effect on the candidates |
| `SectionParser.PmtTrailingIgnored` | snmediaplayer/not_used/RTSP_prv/src/not_used/QAMplayer.c.7405:215-248 | bytes behind any PMT section in its buffer, well-formed or not, have no effect on the PCR PID and the entries walked |
| `LookupTheorems.PatInBuffer` | snmediaplayer/not_used/RTSP_prv/src/not_used/QAMplayer.c.7405:139-157 | a buffer that begins with a serialized PAT has its program list |
| `LookupTheorems.PmtInBuffer` | snmediaplayer/not_used/RTSP_prv/src/not_used/QAMplayer.c.7405:215-247 | a buffer that begins with a serialized PMT gives its PCR PID and the choice on its stream list |
| `SectionParser.PatReadsBetweenHeaderAndCrc` | snmediaplayer/not_used/RTSP_prv/src/not_used/QAMplayer.c.7405:143-147 | for any section_length the PAT entries read are exactly those that lie after the 8-byte header and before the 4-byte CRC |
| `SectionParser.FindStreamPids` | snmediaplayer/not_used/RTSP_prv/src/not_used/QAMplayer.c.7405:220-247 | the PMT loop, for any section content: PCR PID, and the choice of video and audio PID over the entries the loop walks |
| `SectionParser.PmtReadsInSection` | snmediaplayer/not_used/RTSP_prv/src/not_used/QAMplayer.c.7405:224-244 | for any, even malformed, section the loop reads an entry exactly where its five fixed bytes end before the last three of the section, so every read is inside it, and the offset grows by at least 5 without 32-bit overflow |
| `SectionParser.GuardBoundsReadsIff` | snmediaplayer/not_used/RTSP_prv/src/not_used/QAMplayer.c.7405:221-224 | the unsigned guard keeps the first entry read, and every later one, inside the section iff the section has at least 7 bytes; in a shorter one the first entry is read although it starts behind the section |
| `SectionParser.ShortSectionReadBeyond` | snmediaplayer/not_used/RTSP_prv/src/not_used/QAMplayer.c.7405:221-224 | a buffer with section_length 0 for which the loop goes on to offset 12, behind its three-byte section |
| `SectionParser.ReportedPidsInRange` | snmediaplayer/not_used/RTSP_prv/src/not_used/QAMplayer.c.7405:220-237 | reported PIDs are -1 or in 0..8191, whatever the section holds |
| `StreamChoice.StopAt` | snmediaplayer/not_used/RTSP_prv/src/not_used/QAMplayer.c.7405:224 | the scan stops at the shortest prefix with both a video and an audio stream, or at the end of the list |
| `StreamChoice.LastPid` | snmediaplayer/not_used/RTSP_prv/src/not_used/QAMplayer.c.7405:230-237 | within what is read, the last stream of a kind is reported, or -1 when there is none |
| `StreamChoice.ChoiceDetermined` | snmediaplayer/not_used/RTSP_prv/src/not_used/QAMplayer.c.7405:222-247 | those two conditions determine the reported pair |
| `StreamChoice.AbsentIff` | snmediaplayer/not_used/RTSP_prv/src/not_used/QAMplayer.c.7405:222-247 | -1 is reported for a kind exactly when the whole list lacks it, early exit or not |
| `StreamChoice.CompletingEntryIsFirst` | snmediaplayer/not_used/RTSP_prv/src/not_used/QAMplayer.c.7405:222-247 | the entry that completes the pair is the first of its kind in the list, and its PID is reported |
| `StreamChoice.FirstReportedIff` | snmediaplayer/not_used/RTSP_prv/src/not_used/QAMplayer.c.7405:222-247 | of any list: the first stream of a kind is reported iff the last entry that overwrites it (same kind, not the first, none of the other kind before it), if any, has the same PID |
| `StreamChoice.FirstOfDistinctReportedIff` | snmediaplayer/not_used/RTSP_prv/src/not_used/QAMplayer.c.7405:222-247 | where the streams of a kind have distinct PIDs: the first is reported iff no second one precedes the first stream of the other kind |
| `StreamChoice.SecondVideoReported` | snmediaplayer/not_used/RTSP_prv/src/not_used/QAMplayer.c.7405:222-247 | two video streams before an audio stream: the second is reported |
| `StreamChoice.OverwritesIff` | snmediaplayer/not_used/RTSP_prv/src/not_used/QAMplayer.c.7405:224-237 | the entries that overwrite are exactly those of the kind that the loop reads after the first |
| `LookupTheorems.SectionReportsFirstIff` | snmediaplayer/not_used/RTSP_prv/src/not_used/QAMplayer.c.7405:215-247 | the two conditions above for every serialized PMT and the PIDs its bytes give |
| `LookupTheorems.SectionReportsSecondVideo` | snmediaplayer/not_used/RTSP_prv/src/not_used/QAMplayer.c.7405:215-247 | a serialized PMT whose second video stream is reported although the first is its PCR stream |
| `StreamChoice.ResumeChooses` | snmediaplayer/not_used/RTSP_prv/src/not_used/QAMplayer.c.7405:224-247 | the loop, resumed after any prefix with the PIDs found so far, comes to the same choice |
| `TimerTheorems.TimersConserved` | snmediaplayer/.svn/text-base/timer_handler.cpp.svn-base:9-112 | over every run of operations, for each event: adds = handler calls + deletions of a live slot + overwrites of a live slot + drops by re-initialization + 1 if still pending |
| `TimerTheorems.LiveIffPending` | snmediaplayer/.svn/text-base/timer_handler.cpp.svn-base:27-112 | a slot is live iff some Add for it has not since been ended by another operation, and it then holds that Add's handler, context and deadline |
| `TimerTheorems.FiresIff` | snmediaplayer/.svn/text-base/timer_handler.cpp.svn-base:66-112 | an operation calls a handler for an event iff it makes a pending registration due, and calls that registration's handler with its context |
| `TimerTheorems.FiresAtMostOnce` | snmediaplayer/.svn/text-base/timer_handler.cpp.svn-base:77-82 | no registration is fired twice |
| `TimerTheorems.PollScheduleIndependent` | snmediaplayer/.svn/text-base/timer_handler.cpp.svn-base:66-89 | polls at any times with nothing between come to one poll at the latest time: same slots, same calls, each as often |
| `TimerTheorems.PollsInRunIndependent` | snmediaplayer/.svn/text-base/timer_handler.cpp.svn-base:66-89 | in any run, polls at any times at its end may be put together into one at the latest time: same slots, same calls of the run, each as often |
| `TimerTheorems.SweepExact` | snmediaplayer/.svn/text-base/timer_handler.cpp.svn-base:73-107 | a poll or flush calls exactly the due live slots, once each, in increasing order, with their own event ID and context, and leaves the others live and unchanged |
| `TimerTheorems.OutOfRangeNeverCalled` | snmediaplayer/.svn/text-base/timer_handler.cpp.svn-base:29-32 | events outside the table are ignored for good |
| `TimerTheorems.RunLabelled` | snmediaplayer/.svn/text-base/timer_handler.cpp.svn-base:38-42 | in every run a live slot carries its own index as event ID |
| `TimerTheorems.InitEmptiesTable` | snmediaplayer/.svn/text-base/timer_handler.cpp.svn-base:9-25 | after initialization no slot is live, each is labelled 4, and nothing was called |
| `TimerTheorems.AddOnRun` | snmediaplayer/.svn/text-base/timer_handler.cpp.svn-base:27-48 | after any run an Add below 8 writes its own slot whole and no other; from 8 on it writes nothing |
| `TimerTheorems.DelOnRun` | snmediaplayer/.svn/text-base/timer_handler.cpp.svn-base:50-63 | after any run a Del below 8 retires its own slot, keeping what is in it, and no other; from 8 on it does nothing |
| `TimerTheorems.FlushSparesLogUpload` | snmediaplayer/.svn/text-base/timer_handler.cpp.svn-base:91-107 | after any run a flush leaves the slot of event 3 as it is and no other slot live |
| `TimerTheorems.Perform` | snmediaplayer/.svn/text-base/timer_handler.cpp.svn-base:9-113 | any sequence of operations performed on a fresh table object leaves exactly the slots and call log of the run the theorems are about |
| `TimerTable.Table.InitJDHandler` | snmediaplayer/.svn/text-base/timer_handler.cpp.svn-base:9-25 | in-place reset of every slot |
| `TimerTable.Table.AddJDTimerhandler` | snmediaplayer/.svn/text-base/timer_handler.cpp.svn-base:27-48 | in-place registration, ignored out of range, as the slot function the theorems are about |
| `TimerTable.Table.DelJDTimerhandler` | snmediaplayer/.svn/text-base/timer_handler.cpp.svn-base:50-63 | in-place deletion, ignored out of range |
| `TimerTable.Table.PollJDTimerhandler` | snmediaplayer/.svn/text-base/timer_handler.cpp.svn-base:66-89 | in-place loop: slots and call log after a poll at the given time |
| `TimerTable.Table.ExecAllJDhandler` | snmediaplayer/.svn/text-base/timer_handler.cpp.svn-base:91-113 | in-place loop: slots and call log after a flush that spares CHECK_UPLOAD_LOGS |
| `PlayerTheorems.AgreementKept` | snmediaplayer/not_used/common_player.cpp:26-73 | from an agreeing start, after every key sequence device level, mute flag, stored volume and volumeindex agree |
| `PlayerTheorems.VolumeKeyBringsAgreement` | snmediaplayer/not_used/common_player.cpp:30-48 | from any start with an in-range volume, one volume key anywhere in the sequence brings and keeps agreement |
| `PlayerTheorems.MuteTwice` | snmediaplayer/not_used/common_player.cpp:50-66 | two mute keys restore volume, mute flag and stored settings, and the device level iff it agreed before |
| `PlayerTheorems.KeysAreClampedShift` | snmediaplayer/not_used/common_player.cpp:30-66 | every key sequence, mute keys included, acts on an in-range volume as one shift by plus keys less minus keys, clamped between bounds that depend on the keys alone and are got from 0 and 10 by clamped steps of one |
| `PlayerTheorems.VolumeKeyEffect` | snmediaplayer/not_used/common_player.cpp:30-48 | a volume key moves the volume by one unless that leaves 0 to 10, gives it to the device, takes mute off and stores it; the mute entry is not written unless it was set, no other entry ever |
| `PlayerTheorems.MuteKeyEffect` | snmediaplayer/not_used/common_player.cpp:50-66 | the mute key turns mute on exactly if it was off, with the device at 0, and off exactly if it was on, with the device back at the volume; volume, stored volume and other entries stay, and an unknown key changes nothing |
| `PlayerTheorems.MuteIsParity` | snmediaplayer/not_used/common_player.cpp:26-73 | after every key sequence the player is muted iff the mute keys since the last volume key are odd in number, counted on from the first mute state where there was no volume key |
| `Player.CommonPlayer.ProcessCommonMsg` | snmediaplayer/not_used/common_player.cpp:26-73 | the key switch on the player, device and settings objects; `processed` is set except by an unknown key and by the mute key that takes mute off |
| `PlayerTheorems.PressKeys` | snmediaplayer/not_used/common_player.cpp:26-73 | a player object handed any key sequence ends in the state the theorems are about, prebuffering untouched |
| `PlayerTheorems.PlaysOnceAtFirstQuit` | snmediaplayer/not_used/common_player.cpp:92-114 | play is issued once, at the first call with size 0 or with the accumulated level at the maximum, and the level stays where that call left it |
| `PlayerTheorems.StillPrebuffering` | snmediaplayer/not_used/common_player.cpp:97-103 | until then nothing is issued and the level is the 32-bit sum of the sizes |
| `PlayerTheorems.OnlyPrebufferingListens` | snmediaplayer/not_used/common_player.cpp:97-98 | in any other state, playing or not, no buffer of any size changes anything or issues play |
| `PlayerTheorems.WrapsByTurns` | snmediaplayer/not_used/common_player.cpp:103 | the 32-bit sum differs from the true one by whole turns of 32 bits, and by none within range |
| `PlayerTheorems.OvershootBounded` | snmediaplayer/not_used/common_player.cpp:100-103 | the level at exit is below prebuf_max plus twice the largest buffer |
| `PlayerTheorems.EpisodeLengthIff` | snmediaplayer/not_used/common_player.cpp:100-103 | every episode ends within prebuf_max - level0 + 1 calls iff one more buffer on the largest level below the maximum does not overflow 32 bits |
| `PlayerTheorems.WrappingEpisode` | snmediaplayer/not_used/common_player.cpp:100-103 | otherwise a sequence of buffers that is still prebuffering after that many calls |
| `Player.CommonPlayer.CheckPrebufferingState` | snmediaplayer/not_used/common_player.cpp:92-114 | one call, on the player's fields and the device |
| `PlayerTheorems.FeedBuffers` | snmediaplayer/not_used/common_player.cpp:92-114 | a player object fed any sequence of buffer sizes ends in the state the theorems are about, volume and settings untouched |
| `Settings.SavedVolumeReadsBack` | snmediaplayer/common_setting.c:38-67 | reading after saving any integer returns it; the mute entry and all others are undisturbed |
| `Settings.SaveAndRead` | snmediaplayer/common_setting.c:38-67 | the round trip on the store object: the read succeeds with the volume saved, every other entry as it was |
| `Settings.AtoiOfDecimal` | snmediaplayer/common_setting.c:43-64 | printing with %d and reading with atoi, digit by digit, returns every integer |
| `Settings.AtoiReads` | snmediaplayer/common_setting.c:64 | the stored text may also have white space, a sign and anything that is no digit behind its digits |
| `Settings.DecimalIsCanonical` | snmediaplayer/common_setting.c:43 | digits alone, no leading zero or plus sign, and a minus sign exactly below 0 |
| `Settings.DecimalFits` | snmediaplayer/common_setting.c:40-43 | a 32-bit volume prints in at most eleven characters |
| `Settings.MutedIff` | snmediaplayer/common_setting.c:12-23 | mute is on exactly for an entry that begins with 1; missing, empty and other entries mean off |
| `Settings.SettingStore.IfMute` | snmediaplayer/common_setting.c:12-23 | muted iff the stored value starts with 1; a missing entry is not muted |
| `Settings.SettingStore.SetMute` | snmediaplayer/common_setting.c:26-30 | writes the mute entry alone |
| `Settings.SettingStore.UnsetMute` | snmediaplayer/common_setting.c:32-36 | writes the mute entry alone |
| `Settings.SettingStore.SaveVolumeIndex` | snmediaplayer/common_setting.c:38-48 | writes the volume entry alone |
| `Settings.SettingStore.ReadVolumeIndex` | snmediaplayer/common_setting.c:50-67 | a failed read returns -1 and leaves the caller's value as it was |
| `BitFields.PackOfRead` | snmediaplayer/not_used/mp3_parse.h:5 | successive reads of any widths that fill the remaining bits, packed again, are those bits; each field fits its width |
| `BitFields.ReadOfPack` | snmediaplayer/not_used/mp3_parse.h:5 | reading packed fields gives them back, whatever precedes them |
| `BitFields.ReadAt` | snmediaplayer/not_used/mp3_parse.h:5 | the k-th read is the field behind the k widths read before it |
| `BitFields.ReadAll` | snmediaplayer/not_used/mp3_parse.h:5 | any succession of macro reads gives the fields one behind the other and leaves the cursor behind the last |
| `BitFields.Bits` | snmediaplayer/not_used/mp3_parse.h:5 | the macro: the field at the cursor, and the cursor moved past it |
| `Mp3Theorems.FieldsReconstructHeader` | snmediaplayer/not_used/mp3_parse.cpp:30-49 | every synced header is the sync bits followed by its thirteen fields |
| `Mp3Theorems.SyncedIff` | snmediaplayer/not_used/mp3_parse.cpp:32 | the sync bits are all set exactly from 0xFFE00000 on |
| `Mp3Theorems.HeaderOf` | snmediaplayer/not_used/mp3_parse.cpp:30-49 | every choice of fields within their widths is the parse of a synced header |
| `Mp3Header.OffsetsAreSuccessive` | snmediaplayer/not_used/mp3_parse.cpp:37-49 | thirteen successive reads from bit 11 on read at bits 11, 12, 13, 15, 16, 20, 22, 23, 24, 26, 28, 29 and 30 |
| `Mp3Header.ReadFields` | snmediaplayer/not_used/mp3_parse.cpp:30-49 | the thirteen reads with the moving cursor give the fields, all within the tables |
| `Mp3Theorems.ValidIff` | snmediaplayer/not_used/mp3_parse.cpp:51-54 | a header is valid iff it has no reserved layer, version, sampling rate or emphasis and neither the free nor the forbidden bit rate |
| `Mp3Theorems.HeaderRates` | snmediaplayer/not_used/mp3_parse.cpp:7-25 | every valid synced header has the rates of two laws that know no table: 44100, 48000 or 32000 Hz, halved for MPEG 2 and again for MPEG 2.5; bit rates in even steps, or in octaves of four steps |
| `Mp3Theorems.BitrateFollowsLaw` | snmediaplayer/not_used/mp3_parse.cpp:7-18 | the bit rate table, row by row, from its law |
| `Mp3Theorems.SamplingFollowsLaw` | snmediaplayer/not_used/mp3_parse.cpp:20-25 | the sampling rate table from its law |
| `Mp3Theorems.ParseRates` | snmediaplayer/not_used/mp3_parse.cpp:27-64 | a frame object that parses a synced header holds, if valid, the rates of the two laws; if not, length 0 |
| `Mp3Theorems.LengthIsExactQuotient` | snmediaplayer/not_used/mp3_parse.cpp:57-63 | for all positive rates the length less its padding slot is the exact quotient of the rates rounded down to a slot, also after the halving shift |
| `Mp3Theorems.HalvedQuotient` | snmediaplayer/not_used/mp3_parse.cpp:60-61 | dividing 144000*b by s and then halving is dividing 72000*b by s |
| `Mp3Theorems.HeaderLengthBounds` | snmediaplayer/not_used/mp3_parse.cpp:27-64 | for every valid synced 32-bit header the product does not overflow 32 bits and the length is from 24 to 1729 bytes; for an invalid one the length is 0 |
| `Mp3Theorems.HeaderLengthStandardIff` | snmediaplayer/not_used/mp3_parse.cpp:27-64 | of every valid synced header the length is the standard one exactly when it is not low-rate Layer II; for MPEG 2.5, which no standard defines, against the same formula |
| `Mp3Theorems.LowRateLayer2Halved` | snmediaplayer/not_used/mp3_parse.cpp:59-61 | a synced header of a 64 kbit/s Layer II frame at 24000 Hz, valid, whose length is 192 instead of 384 |
| `Mp3Header.MpegFrame.ParseMp3Header` | snmediaplayer/not_used/mp3_parse.cpp:27-88 | the whole parse on the frame object; without sync bits only `valid` is written |

## Left out

- Nexus hardware calls: tuning, display, decoders and memory allocation are foreign; opens and allocations are taken to succeed, and of message and PID-channel calls the order and outcomes are kept.
- The event object and the 4096-byte message buffer: the code never frees them, on any path; the model does not track them.
- The wait for the next section: a run whose script of outcomes ends is reported as still waiting, so nothing is said about how long a wait may last.
- Sections cut short by the demultiplexer: that the buffer holds the whole section is asserted in debug builds for the PAT and nowhere for the PMT; the model takes it as given for both.
- CRC checking, current_next_indicator and multi-section tables: the code does none of these.
- Timer handlers that call back into the timer table: the plain mutex would block them; a handler call is an entry in a log.
- Negative event numbers: the event enumeration is unsigned.
- Failing writes of the settings file: the code ignores their result; the model takes writes to succeed and a read to fail exactly when the entry is missing.
- Overlong setting values: the 256- and 2048-byte buffers are not modelled; what the code itself writes has at most eleven characters (`Settings.DecimalFits`).
- The on-screen display, printing, `sync` and the unused start time of the prebuffering check: no effect on the modelled state.
- Set_Player_Window: its scaled rectangle is only printed.
- VodGetErrorString: its table search is unreachable, behind an unconditional return.
- QAMplayer_task: QAM mode and annex switches and start-up of the decoders are one-branch mappings.
- RTSP, RTP and shared-memory code: the classes derived from CommonPlayer and the network clients are not part of this model.
