# Verified models of the phone tool and the payment handlers

This project models, in Dafny, the parts of the repository that decode, rewrite, sort, split and account: the data
handling of the Gammu command-line tool (C) and the payment and order handlers of the food-ordering application
(Python). Code that updates state step by step is a class or a method with its loops and is proved equal to a
specification function; what the program promises is then proved about that function, for all inputs and all runs. What
a specification function means is stated a second time, with texts, numbers and codes of its own: names of options,
frame bytes, file texts, return codes, what a request moves, where a line breaks.

| file | models |
|---|---|
| `Wrappers.dfy`, `Numerals.dfy`, `Ascii.dfy`, `Bytes.dfy` | optional values, decimal numerals, characters, bytes and exclusive or |
| `Mbus2.dfy`, `Irda.dfy`, `PortMon.dfy` | the sniffer's two frame decoders and the PortMon log reader (`gammu/sniff.c`) |
| `Playlist.dfy`, `Composer.dfy`, `Jad.dfy` | playlists, ringtone key presses, JAD files (`gammu/nokia.c`) |
| `Phonebook.dfy`, `Todo.dfy` | backup and restore of the phonebook and of the to-do list (`gammu/backup.c`) |
| `Batch.dfy`, `Help.dfy` | batch lines and help wrapping (`gammu/gammu.c`) |
| `Ems.dfy` | the options that compose an EMS message (`helper/message-cmdline.c`) |
| `Ledger.dfy`, `FundingRace.dfy` | central accounts, wallets and payouts as requests; concurrent webhook deliveries as interleaved steps (`app/handlers`, `app/database/wallet.py`) |
| `Chat.dfy` | the WhatsApp order flow (`app/whatsapp/whatsapphandler.py`) |

`dafny verify dfyconfig.toml` checks everything.

## Where the code does not do what is expected of it

Each of these is stated with the exact condition under which the expectation holds.

- The IrDA decoder never leaves a frame that announces no payload, so everything after it is lost
  (`Irda.CompleteIffNoEmptyFrame`).
- The composer's loops never end for a scale outside 880 to 3520 Hz, or for a duration after a note without one
  (`Composer.AllLoopsEndIff`); double dots, two-thirds lengths and unknown pitches are lost
  (`Composer.CompilePreservesMeaning`).
- Restoring an empty backup does not clear a phone, and phonebook entries without content are not restored
  (`Phonebook.RoundTripIff`, and `Phonebook.FallbackRoundTripIff` for phones without a status query). A phone that
  cannot write a to-do entry at a given location numbers the entries anew (`Todo.TodoRoundTripIff`).
- A batch command with a line feed or a NUL in an argument, one of more than 1997 characters, one whose last argument
  ends in white space, or one whose first argument starts with "#", is not read back, and more than 19 arguments
  overflow the argument vector (`Batch.FileRoundTripIff`).
- The help wrapper breaks a text that fills the columns exactly (`Help.FittingTextIff`, `Help.FittingTextBroken`), and
  in a wrapped text a last line that fits (`Help.OneLineIff`). It does not break at a space in second place, so that
  line can run over (`Help.FirstLineFitsIff`, `Help.SpaceAtOneOverflows`).
- A JAD file without a size line is not extended by one: the search runs off the end of the file (`Jad.RewriteJad`).
  Taking the size line out can leave a blank line (`Jad.BlankLineAppearsIff`, `Jad.CrLfBlankLine`).
- The comment at `gammu/nokia.c:762` speaks of changing every CR or LF to CR LF; the code pairs them up, so two line
  feeds in a row become one line end (`Jad.EachEolIff`, `Jad.TwoLineFeeds`).
- Only the first size line of a JAD file is taken out, so another one behind it still gives an old size first
  (`Jad.NewSizeFirstIff`).
- A payout is paid by a provider before the wallet is looked at, so it can be paid and never debited
  (`Ledger.PaidButNotDebited`, `Ledger.PayoutsBalanceIff`).
- The two webhooks log a payment under different references, so the unique reference does not keep them from funding
  the same payment both (`FundingRace.FundedOnceIff`, `FundingRace.BothHooksFund`).
- A paid Monnify notification is taken for a duplicate when a funding through Monnify was started under its reference
  (`Ledger.DroppedIff`, `Ledger.DroppedAfterRunIff`).
- `Wallet.credit` (`app/database/wallet.py:22-26`) is described as working in memory but commits through a name the
  file does not define. It is modelled as described; committing would allow a double credit
  (`FundingRace.SafeIffInMemory`).
- The Flutterwave webhook reads and writes a wallet without locking it, so an update in between is lost
  (`FundingRace.BalancedIffNoStaleWrite`, `FundingRace.PayoutLost`).
- A helper that fails after the payment leaves the order to be confirmed, and charged, again
  (`Chat.ChargedAndWaitingIff`, `Chat.OncePerWaitIff`; `Chat.RetryChargesAgain` is an example).

## Model

| member | source | states |
|---|---|---|
| Bytes.XorDetectsOneByte | gammu-1.42.0/gammu/sniff.c:29-40 | replacing one byte of a string by a different one always changes the XOR of the string |
| Bytes.XorBitsBits | gammu-1.42.0/gammu/sniff.c:29-40 | each bit of the exclusive or is set if and only if exactly one of the two bits is |
| Mbus2.Decoder.constructor | gammu-1.42.0/gammu/sniff.c:282-283 | a decoder starts in sync with nothing reported |
| Mbus2.Decoder.DecodeInput | gammu-1.42.0/gammu/sniff.c:24-112 | one byte changes state, count, buffer, checksums and report exactly as `Step` says; the buffer never overflows, because a frame has at most 65535 + 2 bytes after its header |
| Mbus2.DecoderIsParser | gammu-1.42.0/gammu/sniff.c:24-112 | on every input, the byte-at-a-time automaton with its running checksum reports what `Parse` reads by looking ahead over whole items, and ends in sync exactly when the input ends where an item ends |
| Mbus2.Sound | gammu-1.42.0/gammu/sniff.c:29-60 | each accepted message has its own well-formed frame in the input (right header, announced length, XOR zero), disjoint from the others and in the same order |
| Mbus2.WellFormedIffEncoded | gammu-1.42.0/gammu/sniff.c:37-110 | the byte strings accepted as frames are exactly the encodings of messages that are not acknowledgements |
| Mbus2.ParseLine | gammu-1.42.0/gammu/sniff.c:24-112 | frames with gaps free of the frame ID between them: every frame is passed on and every gap byte complained about |
| Mbus2.ParseBadDevice | gammu-1.42.0/gammu/sniff.c:81-102 | a byte that is no device number, as destination or source, is complained about and the frame given up |
| Mbus2.ParseAcknowledgement | gammu-1.42.0/gammu/sniff.c:62-69 | an acknowledgement of type 0x7F has six bytes and is passed over in silence |
| Mbus2.ParseBadChecksum | gammu-1.42.0/gammu/sniff.c:37-45 | a frame whose last byte is not the exclusive or of the others is reported as a checksum error with its message |
| Mbus2.Complete | gammu-1.42.0/gammu/sniff.c:24-112 | the automaton accepts exactly the sent messages from such a line, whatever the gaps |
| Mbus2.CorruptionDetected | gammu-1.42.0/gammu/sniff.c:29-45 | changing one payload, sequence or checksum byte of a frame gives one checksum error at the same final byte, and what follows decodes as if nothing had happened |
| Mbus2.BytesToSync | gammu-1.42.0/gammu/sniff.c:34-78 | at most 5 + 65537 more bytes until sync from any reachable state, and 0 exactly in sync |
| Mbus2.Resynchronises | gammu-1.42.0/gammu/sniff.c:24-112 | whatever bytes follow, the decoder is in sync again within that bound |
| Mbus2.ResyncBoundMet | gammu-1.42.0/gammu/sniff.c:66-78 | the bound is tight: some input keeps the decoder out of sync for all 5 + 65537 bytes |
| Irda.Decoder.constructor | gammu-1.42.0/gammu/sniff.c:276-278 | a decoder starts in sync with nothing reported |
| Irda.Decoder.DecodeInput | gammu-1.42.0/gammu/sniff.c:116-182 | one byte changes the fields and the report exactly as `Step` says |
| Irda.Decoder.DecodeSniff | gammu-1.42.0/gammu/sniff.c:276-287 | a file read in 30000-byte blocks gives the messages of `Parse` of the whole file: block boundaries do not matter |
| Irda.DecoderIsParser | gammu-1.42.0/gammu/sniff.c:116-182 | on every input the automaton agrees with the whole-frame reader |
| Irda.ParseEncoded | gammu-1.42.0/gammu/sniff.c:121-143 | an encoded message comes out and reading goes on after it, unless it has no payload: then nothing ever comes out again |
| Irda.ParseNothing | gammu-1.42.0/gammu/sniff.c:158-181 | bytes that start no frame are passed over in silence, and so is a frame with a byte that is no device number |
| Irda.EmptyFrameSwallowsRest | gammu-1.42.0/gammu/sniff.c:121-125 | a run of encoded messages decodes to those before the first one without payload |
| Irda.CompleteIffNoEmptyFrame | gammu-1.42.0/gammu/sniff.c:121-125 | the run decodes completely if and only if no message has an empty payload (the length test is an inequality that a zero length never meets) |
| PortMon.DecodeBlock | gammu-1.42.0/gammu/sniff.c:289-338 | one block of text takes the text state and the half-read byte to those after the block, and fills the byte buffer with the bytes read |
| PortMon.FeedBlock | gammu-1.42.0/gammu/sniff.c:339-341 | the decoder has then been fed the block's bytes after all earlier ones |
| PortMon.DecodeSniff | gammu-1.42.0/gammu/sniff.c:280-344 | decoding a log of any size, block by block, reports what `Parse` reads in the bytes the whole log stands for |
| PortMon.ReadLine | gammu-1.42.0/gammu/sniff.c:298-337 | a log line of any text without a colon, a length and any bytes, with or without a space after the last one, gives exactly those bytes and leaves the automaton between lines |
| PortMon.LogRoundTrip | gammu-1.42.0/gammu/sniff.c:294-338 | a log rendered from any byte lists, empty ones included, with any text without a colon before each, stands for their concatenation |
| PortMon.LoggedFramesDecode | gammu-1.42.0/gammu/sniff.c:280-344 | frames logged in pieces of any size decode to exactly the messages of the frames |
| Playlist.Entry.constructor | gammu-1.42.0/gammu/nokia.c:273-294 | an entry holds a name, its lower-case form and a link |
| Playlist.GreaterIff | gammu-1.42.0/gammu/nokia.c:311-311 | the comparison is dictionary order: the strings agree up to some place, and there the first one has the larger character or goes on alone |
| Playlist.SwapSongs | gammu-1.42.0/gammu/nokia.c:312-318 | two neighbours exchange name and key together; the links and all other entries stay |
| Playlist.SwapRemovesInversion | gammu-1.42.0/gammu/nokia.c:311-318 | swapping neighbours out of order removes exactly one inversion, which is why restarting from the head ends |
| Playlist.SortSongs | gammu-1.42.0/gammu/nokia.c:307-324 | ends, and leaves the same list of entries with no song behind a later one in dictionary order, as a permutation that keeps names with their keys and equal keys in their old order |
| Playlist.StableSortUnique | gammu-1.42.0/gammu/nokia.c:307-324 | a sorted list with the same songs in the same order under each key is unique, so the result of the sort is fully determined |
| Playlist.SameByKeyPermutation | gammu-1.42.0/gammu/nokia.c:307-324 | lists with the same songs under every key are permutations of each other |
| Numerals.DecimalInjective | gammu-1.42.0/gammu/nokia.c:331-334 | different numbers have different decimal forms |
| Playlist.CandidatesDiffer | gammu-1.42.0/gammu/nokia.c:329-335 | different rounds try names that differ even without regard to case |
| Playlist.SameNameIff | gammu-1.42.0/gammu/nokia.c:348-348 | two names are compared as their lower-case forms |
| Playlist.Pigeonhole | gammu-1.42.0/gammu/nokia.c:328-358 | if the first n candidates are all taken, the folder has at least n entries |
| Playlist.FreeName | gammu-1.42.0/gammu/nokia.c:325-358 | ends within one round more than the folder has entries; the name is the base name, the least number that makes it free (none for 0), and ".m3u", where free means that no file of the folder has the same lower-case name |
| Playlist.WriteLines | gammu-1.42.0/gammu/nokia.c:371-382 | the buffer is the header and the names in list order, each followed by CR LF |
| Playlist.TurnSlashes | gammu-1.42.0/gammu/nokia.c:384-386 | every slash becomes a backslash and nothing else changes |
| Playlist.WritePlaylist | gammu-1.42.0/gammu/nokia.c:371-386 | the file is "#EXTM3U" and the names in list order, each after a CR LF, none after the last, with slashes turned into backslashes |
| Playlist.AddPlaylist | gammu-1.42.0/gammu/nokia.c:307-390 | the songs end up in dictionary order of their keys, the name is the least free one, and the file lists the songs in that order |
| Composer.EnterScale | gammu-1.42.0/gammu/nokia.c:136-144 | the loop ends with the note's scale after the least number of presses of "*" |
| Composer.EnterDuration | gammu-1.42.0/gammu/nokia.c:155-166 | the loops end with the note's duration and the presses that `DurationKeys` counts |
| Composer.EnterNote | gammu-1.42.0/gammu/nokia.c:111-168 | a note's keys and the defaults it leaves behind; a pause leaves the scale alone |
| Composer.Compose | gammu-1.42.0/gammu/nokia.c:107-170 | the printed keys are those of the notes from the first one that is not a pause |
| Composer.NoteInPlace | gammu-1.42.0/gammu/nokia.c:107-110 | the notes are the tones of the ringtone, each in its place, and nothing else |
| Composer.NotesFrom | gammu-1.42.0/gammu/nokia.c:111-114 | what is entered are the notes without their leading pauses |
| Composer.ScaleReachable | gammu-1.42.0/gammu/nokia.c:138-142 | pressing "*" reaches a scale if and only if it is one of the composer's three, and then within two presses |
| Composer.ScaleFrequencies | gammu-1.42.0/gammu/nokia.c:138-142 | the composer scales are those from 880 to 3520 Hz; "*" doubles the frequency and leads from 3520 back to 880 |
| Composer.NothingDoubles | gammu-1.42.0/gammu/nokia.c:155-160 | from duration 0 no doubling ever reaches another duration |
| Composer.KeysBounded | gammu-1.42.0/gammu/nokia.c:136-166 | a note with a duration takes at most two scale keys and five duration keys |
| Composer.LoopsEndIff | gammu-1.42.0/gammu/nokia.c:136-166 | some number of rounds takes each loop of a note to its end if and only if the scale is the composer's and no duration has to be doubled up from none |
| Composer.AllLoopsEndIff | gammu-1.42.0/gammu/nokia.c:107-170 | all loops for a ringtone end if and only if every scale after the leading pauses is between 880 and 3520 Hz and no note with a duration follows one without |
| Composer.ReplayCompiled | gammu-1.42.0/gammu/nokia.c:107-170 | pressing the keys on a composer with a current scale and duration enters one note for each note, with its pitch, sharp, scale and duration |
| Composer.CompilePreservesMeaning | gammu-1.42.0/gammu/nokia.c:107-170 | on a composer at 880 Hz and a quarter note, the entered melody has the pitches, scales and note lengths of the ringtone without its leading pauses if and only if every note has a known pitch and a plain or dotted duration |
| Jad.FindKey | gammu-1.42.0/gammu/nokia.c:717-721 | the first place where the key stands, in any case, or the end of the file |
| Jad.KeyAtIff | gammu-1.42.0/gammu/nokia.c:718-718 | the key is "MIDlet-Jar-Size: ", in any case |
| Jad.FindLine | gammu-1.42.0/gammu/nokia.c:722-731 | the line end before the key, or the start, and the next line end, or the end |
| Jad.ShiftDown | gammu-1.42.0/gammu/nokia.c:732-737 | the in-place shift deletes exactly the bytes between the two positions and keeps all others in order |
| Jad.RemoveSizeLine | gammu-1.42.0/gammu/nokia.c:715-738 | in place, the first size line goes and everything else stays; without one the scan would leave the file, and nothing is changed |
| Jad.OneLineRemoved | gammu-1.42.0/gammu/nokia.c:722-731 | what is removed holds the first declaration, begins with the line end before it unless it is the first line, and has no other line end inside |
| Jad.DeclarationsLeft | gammu-1.42.0/gammu/nokia.c:715-738 | any declaration left after the removal stood outside the removed line: joining the two sides makes no new one |
| Jad.CorrectSize | gammu-1.42.0/gammu/nokia.c:715-748 | the old line is gone and one with the real size ends the file, exactly when there was a size line |
| Jad.NewSizeDeclared | gammu-1.42.0/gammu/nokia.c:715-748 | a file that declared its size once declares it once again, and the decimal number there is the real size |
| Jad.NewSizeFirstIff | gammu-1.42.0/gammu/nokia.c:715-748 | in a file with any number of size lines, the first declaration afterwards gives the new size if and only if no size was declared behind the removed line |
| Jad.Normalise | gammu-1.42.0/gammu/nokia.c:762-782 | the copy loop with its flag computes `Normalised` |
| Jad.WrittenIsNormalised | gammu-1.42.0/gammu/nokia.c:762-779 | the flag turns each run of k line-end bytes into k/2 pairs CR LF, rounded up |
| Jad.EachEolIff | gammu-1.42.0/gammu/nokia.c:762-779 | the file is the one with every CR or LF changed to CR LF if and only if no two line-end bytes stand next to each other |
| Jad.TwoLineFeeds | gammu-1.42.0/gammu/nokia.c:762-779 | an input for which it is not: two line feeds become one CR LF |
| Jad.NormalisedIdempotent | gammu-1.42.0/gammu/nokia.c:762-779 | normalising twice is normalising once |
| Jad.NormalisedKeepsText | gammu-1.42.0/gammu/nokia.c:762-779 | all bytes that are not line ends are kept, in order |
| Jad.NormalisedKeepsLines | gammu-1.42.0/gammu/nokia.c:762-779 | the lines with text are kept, in order |
| Jad.BlankIffTriple | gammu-1.42.0/gammu/nokia.c:762-779 | the result has a blank line if and only if three line-end bytes followed each other |
| Jad.RewriteJad | gammu-1.42.0/gammu/nokia.c:715-782 | a wrong size is corrected, a right one left, and the line ends are made uniform; this works if and only if the size is right or "MIDlet-Jar-Size: " stands somewhere |
| Jad.RewrittenLines | gammu-1.42.0/gammu/nokia.c:715-782 | the lines with text of the result are those of the file without the first size line, and then the new one |
| Jad.BlankLineAppearsIff | gammu-1.42.0/gammu/nokia.c:715-782 | in a file without blank lines, one appears if and only if three line-end bytes meet where the old line was, or before the new one |
| Jad.CrLfBlankLine | gammu-1.42.0/gammu/nokia.c:722-737 | CR LF before and after the size line leaves a blank line in its place |
| Phonebook.EntriesAscending | gammu-1.42.0/gammu/backup.c:201-326 | the list of a memory ascends strictly by location |
| Phonebook.EntriesCount | gammu-1.42.0/gammu/backup.c:283-319 | the list of a memory has as many entries as the memory, which is why the scan ends within the capacity |
| Phonebook.Phone.GetMemoryStatus | gammu-1.42.0/gammu/backup.c:214-224 | used and free locations, or an error from phones that do not report them |
| Phonebook.Phone.GetMemory | gammu-1.42.0/gammu/backup.c:286-288 | the entry at a location, that it is empty, or that it does not exist |
| Phonebook.Phone.GetNextMemory | gammu-1.42.0/gammu/backup.c:220-230 | the next used location, or the first one |
| Phonebook.Phone.SetMemory | gammu-1.42.0/gammu/backup.c:1083-1083 | an entry is stored at its location, if that exists, and nothing else changes |
| Phonebook.Phone.DeleteMemory | gammu-1.42.0/gammu/backup.c:1109-1117 | a location is emptied, if it exists, and nothing else changes |
| Phonebook.ReadNext | gammu-1.42.0/gammu/backup.c:238-281 | the next-entry loop fills the list with the memory's entries, as many as fit, and ends it |
| Phonebook.ReadScan | gammu-1.42.0/gammu/backup.c:282-324 | the location scan fills the list with the same entries |
| Phonebook.ReadPhonebook | gammu-1.42.0/gammu/backup.c:201-326 | whichever way the phone supports, the list is the same strictly ascending one; it fails exactly when neither way starts |
| Phonebook.RestorePass | gammu-1.42.0/gammu/backup.c:1074-1117 | one pass over the locations writes the entries whose turn it is and deletes the rest, skipping deletions on an empty phone, and stops at a deletion beyond the last location; `used` counts the entries reached |
| Phonebook.PassMerges | gammu-1.42.0/gammu/backup.c:1076-1117 | a pass leaves the locations outside its range alone and replaces those inside by the list's entries |
| Phonebook.MergedIff | gammu-1.42.0/gammu/backup.c:1076-1117 | what a pass over an ascending list leaves in its range are exactly the entries of the list that have content |
| Phonebook.ReachedAllIff | gammu-1.42.0/gammu/backup.c:1080-1082 | the pass reaches every entry of a list if and only if the list ascends strictly within the range |
| Phonebook.Restore | gammu-1.42.0/gammu/backup.c:1055-1129 | the memory and the error after a restore, for phones with and without a status query and of any capacity; an empty list restores nothing |
| Phonebook.PassErrorIff | gammu-1.42.0/gammu/backup.c:1076-1117 | a pass over an ascending list ends without an error if and only if every location the phone does not have is written to and none of them deleted |
| Phonebook.MergedEntries | gammu-1.42.0/gammu/backup.c:1076-1117 | merging the full list of a memory gives its entries with content |
| Phonebook.TooManyLost | gammu-1.42.0/gammu/backup.c:245-249 | a memory with more entries than the limit does not come back |
| Phonebook.RoundTripIff | gammu-1.42.0/gammu/backup.c:201-326 | backing up one memory and restoring it over any other of the same capacity gives exactly the first if and only if it fits the limit, every entry has content, and an empty backup meets an empty phone |
| Phonebook.PassRoundTripIff | gammu-1.42.0/gammu/backup.c:1076-1117 | a pass over some of the locations gives the backed-up memory if and only if its entries there have content and fitted into the backup, and the memories already agree elsewhere |
| Phonebook.FallbackRoundTripIff | gammu-1.42.0/gammu/backup.c:1061-1129 | the same for phones without a status query, which are restored over twice as many locations as the backup has entries, as far as they have them |
| Phonebook.FallbackErrorIff | gammu-1.42.0/gammu/backup.c:1061-1117 | such a restore ends with an error if and only if twice the entries of the backup are more than the phone has locations |
| Phonebook.BackupAndRestore | gammu-1.42.0/gammu/backup.c:1055-1129 | the two programs together compute the round trip for both kinds of phone: a memory comes back exactly under the two conditions, an error ends it exactly under the third, and an empty backup changes nothing |
| Todo.TodoPhone.constructor | gammu-1.42.0/gammu/backup.c:1241-1251 | a phone with its list and what it supports |
| Todo.TodoPhone.GetToDoStatus | gammu-1.42.0/gammu/backup.c:451-454 | the number of entries, or an error from phones that do not report it |
| Todo.TodoPhone.GetNextToDo | gammu-1.42.0/gammu/backup.c:459-473 | the next used location, or the first one |
| Todo.TodoPhone.SetToDo | gammu-1.42.0/gammu/backup.c:1253-1256 | an entry is written at its own location, or nothing changes on phones that cannot do that |
| Todo.TodoPhone.AddToDo | gammu-1.42.0/gammu/backup.c:1274-1277 | an entry is written at the first free location |
| Todo.TodoPhone.DeleteToDo | gammu-1.42.0/gammu/backup.c:1301-1304 | a location is emptied and nothing else changes |
| Todo.TodoPhone.DeleteAllToDo | gammu-1.42.0/gammu/backup.c:1258-1259 | everything is deleted, or nothing where that is not supported |
| Todo.ReadTodos | gammu-1.42.0/gammu/backup.c:449-484 | the list read is the memory's entries by ascending location, as many as fit; phones without status are not read |
| Todo.DeleteOneByOne | gammu-1.42.0/gammu/backup.c:1260-1266 | deleting the first entry again and again ends with nothing left |
| Todo.RestoreByAdding | gammu-1.42.0/gammu/backup.c:1256-1288 | the list is exactly the backup's entries, numbered 1, 2, 3, ... in their order, whatever was there before |
| Todo.DeleteUnlisted | gammu-1.42.0/gammu/backup.c:1289-1314 | deleting while walking misses nothing: only locations of the backup are left |
| Todo.RestoreInPlace | gammu-1.42.0/gammu/backup.c:1288-1331 | the list is exactly the backup's entries at their own locations, whatever was there before |
| Todo.Restore | gammu-1.42.0/gammu/backup.c:1241-1332 | the way is chosen by writing the first entry; nothing happens for an empty backup or without status |
| Todo.AtLocationsOfEntries | gammu-1.42.0/gammu/backup.c:1317-1330 | the entries of a memory, put at their locations, are the memory |
| Todo.BothWaysKeepContents | gammu-1.42.0/gammu/backup.c:1241-1332 | either way leaves the backed-up contents in their order and nothing else |
| Todo.NumberedIff | gammu-1.42.0/gammu/backup.c:1273-1277 | numbering anew gives the old memory back if and only if its locations had no gaps |
| Todo.TodoRoundTripIff | gammu-1.42.0/gammu/backup.c:1241-1332 | a list comes back exactly if and only if it fits the limit, has no gaps or the phone can write in place, and an empty backup meets an empty phone |
| Todo.BackupAndRestore | gammu-1.42.0/gammu/backup.c:449-484 | the programs together bring a list back exactly under that condition, and only then |
| Batch.Push | gammu-1.42.0/gammu/gammu.c:435-440 | an argument is added after those already there |
| Batch.SplitWords | gammu-1.42.0/gammu/gammu.c:416-453 | the index loop stores, from index 1 on, exactly the arguments that the grammar `Words` reads, and counts them |
| Batch.RunBatchLine | gammu-1.42.0/gammu/gammu.c:398-453 | trailing white space is cut, empty lines and comments give no arguments, other lines their arguments |
| Batch.WordsOfRender | gammu-1.42.0/gammu/gammu.c:416-453 | arguments written bare or in quotes and joined by single spaces are split back into exactly those arguments, empty quoted ones included |
| Batch.WordsAtSpaces | gammu-1.42.0/gammu/gammu.c:432-442 | every space and the end of the line end a bare argument, an empty one too |
| Batch.WordsAtQuotes | gammu-1.42.0/gammu/gammu.c:421-448 | a quote drops what stands right before it, the character after its closing quote is dropped too, and without a closing quote the argument is lost |
| Batch.LineMeans | gammu-1.42.0/gammu/gammu.c:398-410 | white space at the end of a line does not count; a line of nothing else and one that begins with "#" have no arguments; any other line is split |
| Batch.LineCut | gammu-1.42.0/gammu/gammu.c:363-389 | a line is cut after 1997 characters and the rest read as a line of its own |
| Batch.AfterNul | gammu-1.42.0/gammu/gammu.c:398-399 | what follows a NUL on a line is not read |
| Batch.TrimmingLoses | gammu-1.42.0/gammu/gammu.c:398-405 | a line that loses white space at its end is never split back into what it was written from |
| Batch.LineRoundTripIff | gammu-1.42.0/gammu/gammu.c:398-453 | the grammar of a line reads what the line was written from if and only if the line does not begin with "#" and does not end in white space; whether the arguments also fit is in `Batch.FileRoundTripIff` |
| Batch.FindLineEnd | gammu-1.42.0/gammu/gammu.c:387-396 | a line read reaches to its line feed, the end of the buffer or the end of the file |
| Batch.Strlen | gammu-1.42.0/gammu/gammu.c:398-399 | what is read ends at the first NUL |
| Batch.RunBatch | gammu-1.42.0/gammu/gammu.c:387-476 | the file is read line by line and each line with arguments is run, in order |
| Batch.CommandsWithout | gammu-1.42.0/gammu/gammu.c:387-453 | no argument that is run contains a line feed or a NUL |
| Batch.ArgsFitIff | gammu-1.42.0/gammu/gammu.c:406-453 | the argument vector overflows exactly when one of the commands of the file has more than 19 arguments |
| Batch.FileRoundTripIff | gammu-1.42.0/gammu/gammu.c:363-476 | a file written from any commands runs exactly these commands if and only if each of them has at most 19 arguments, none with a line feed or a NUL, and a line that fits into the buffer, does not begin with "#" and does not end in white space |
| Batch.TooLongLost | gammu-1.42.0/gammu/gammu.c:363-389 | a command whose line does not fit into the buffer is never run as it was written, by any of the lines it is read as |
| Batch.NeverCaughtUp | gammu-1.42.0/gammu/gammu.c:387-476 | once something else was run, the commands that follow never stand where they should again |
| Batch.CommandRoundTripIff | gammu-1.42.0/gammu/gammu.c:363-476 | the same for a single command |
| Help.InOptionIff | gammu-1.42.0/gammu/gammu.c:839-845 | a position is inside an option if and only if some "[" before it has no "]" behind it up to there |
| Help.FindSplit | gammu-1.42.0/gammu/gammu.c:837-849 | the scan finds the last place to split within the width: the "]" that closes an option, or before a space outside options |
| Help.SplitPlace | gammu-1.42.0/gammu/gammu.c:839-846 | a split other than 0 is outside options, before a space or after a closing bracket; it is -1 only for a space at the start |
| Help.SplitIsLast | gammu-1.42.0/gammu/gammu.c:837-849 | the split belongs to the last place to split in the window; it is 0 if and only if there is none, or the last one is the space at position 1 |
| Help.PrintLine | gammu-1.42.0/gammu/gammu.c:850-863 | one line is printed and strictly less text remains, also for a split of -1 |
| Help.PrintWrapped | gammu-1.42.0/gammu/gammu.c:829-864 | the loop ends and prints the lines of `Wrap`, all but the first indented |
| Help.HelpSplit | gammu-1.42.0/gammu/gammu.c:810-867 | what is printed is a space, the first line, and the other lines after an indentation; the text is one line if no columns are known or it leaves one free, otherwise it is wrapped |
| Help.LineLength | gammu-1.42.0/gammu/gammu.c:850-863 | a line shorter than the text ends outside options and is no longer than the width |
| Help.WrapBreaks | gammu-1.42.0/gammu/gammu.c:829-864 | the lines, with the space dropped at a break put back, are the text again; no break is between a "[" and its "]", and each line ends at the last place to split in its window, which determines them all |
| Help.WrapFits | gammu-1.42.0/gammu/gammu.c:837-857 | every line that another one follows fits in the width |
| Help.HelpKeepsText | gammu-1.42.0/gammu/gammu.c:810-867 | the printed lines of any text are the text itself if it need not be wrapped, and otherwise the lines that `Breaks` describes |
| Help.OneLineIff | gammu-1.42.0/gammu/gammu.c:850-853 | a wrapped text stays on one line if and only if the window has no place to split, or its last place is the space at position 1 or the bracket that ends the text |
| Help.FirstLineFitsIff | gammu-1.42.0/gammu/gammu.c:837-863 | the first line fits if and only if the whole text does, or the window has a place to split and the last one is not the space at position 1 |
| Help.SpaceAtOneOverflows | gammu-1.42.0/gammu/gammu.c:846-853 | an input that is printed on one line of 11 characters where 4 fit, although it has a place to split |
| Help.FittingTextIff | gammu-1.42.0/gammu/gammu.c:810-863 | a text that fits into the columns stays on one line if and only if it leaves one free, has no place to split, or ends in the bracket that is its last place to split |
| Help.FittingTextBroken | gammu-1.42.0/gammu/gammu.c:810-863 | an input that is broken although it fits: "ab cd" where exactly 5 columns are left becomes two lines |
| Ems.MessageComposer.constructor | gammu-1.42.0/helper/message-cmdline.c:101-200 | no entries, no option pending, and the defaults of what goes with the message: folder 1, state sent, no reports |
| Ems.MessageComposer.BeginEntry | gammu-1.42.0/helper/message-cmdline.c:934-1025 | an entry is protected, and the counter lowered, exactly when the counter is not 0 |
| Ems.MessageComposer.EndEntry | gammu-1.42.0/helper/message-cmdline.c:1147-1153 | the entry is complete and a blank one begins |
| Ems.MessageComposer.HandleOption | gammu-1.42.0/helper/message-cmdline.c:594-1026 | each option, in any case, sets the mode it should and nothing else, if it can be given for the command; "-save" also makes "-folder" available; an unknown option is an error |
| Ems.MessageComposer.CollectFrames | gammu-1.42.0/helper/message-cmdline.c:1195-1199 | frames are taken over until there are as many as asked for |
| Ems.MessageComposer.ApplyFormat | gammu-1.42.0/helper/message-cmdline.c:1226-1267 | all formatting letters are added to the last entry, or a wrong letter is an error |
| Ems.MessageComposer.Configure | gammu-1.42.0/helper/message-cmdline.c:1041-1146 | the value of a setting is stored, or is an error; a name of more than 200 characters is ignored, and a number of the message centre overrides its position |
| Ems.MessageComposer.HandleValue | gammu-1.42.0/helper/message-cmdline.c:1147-1271 | the argument an option awaits, in each mode, with its errors |
| Ems.MessageComposer.HandleArgument | gammu-1.42.0/helper/message-cmdline.c:592-1316 | one argument is read as the mode says |
| Ems.MessageComposer.Compose | gammu-1.42.0/helper/message-cmdline.c:592-1333 | the loop accepts a command line, with nothing missing at the end, and builds its entries; with -16bit the texts are marked afterwards |
| Ems.RecogniseIff | gammu-1.42.0/helper/message-cmdline.c:594-1026 | for each option, those of the message as a whole included, a text is recognised as that option if and only if it is its name, in any case |
| Ems.RecogniseName | gammu-1.42.0/helper/message-cmdline.c:594-1026 | each name is recognised as its option: no earlier name of the list captures it |
| Ems.GetIntIff | gammu-1.42.0/helper/cmdline.c:8-36 | a text is read as a number if and only if it is empty, or white space, perhaps a sign, and digits |
| Ems.SignedDecimal | gammu-1.42.0/helper/cmdline.c:8-36 | a sign counts |
| Ems.ReadPeriodIff | gammu-1.42.0/helper/message-cmdline.c:1133-1143 | each validity is read from its word and from nothing else |
| Ems.FormatSetIs | gammu-1.42.0/helper/message-cmdline.c:1226-1260 | formatting letters set their attributes, in lower or upper case |
| Ems.GetIntDecimal | gammu-1.42.0/helper/cmdline.c:8-36 | a number written in decimal is read back |
| Ems.RunSetting | gammu-1.42.0/helper/message-cmdline.c:594-1270 | a setting of the message and its value are read as such, where the command allows it |
| Ems.RunFormats | gammu-1.42.0/helper/message-cmdline.c:1226-1267 | the formats after a text add up on its entry; a wrong letter is an error |
| Ems.RunAnimation | gammu-1.42.0/helper/message-cmdline.c:1177-1205 | an animation of one to four frames gets the first frames, as many as asked for, of its files taken together; any other number is an error |
| Ems.RunPieces | gammu-1.42.0/helper/message-cmdline.c:594-1271 | from any state between entries, an acceptable list of pieces adds exactly its entries and makes its settings, and any other is rejected |
| Ems.OptionsRoundTrip | gammu-1.42.0/helper/message-cmdline.c:592-1333 | a command line written with the names of the options, for any items, formats, marks and settings, is accepted if and only if every file can be read, every format and number is one, and every option can be given for the command at its place; it is then read as exactly those entries, in order, and those settings |
| Ems.Rejected | gammu-1.42.0/helper/message-cmdline.c:1020-1039 | a text that is no option, where one is expected, is an error, and so is an option whose argument is missing at the end |
| Ems.MarkedMeanings | gammu-1.42.0/helper/message-cmdline.c:1319-1331 | marking the texts at the end is reading them as 16-bit texts |
| Ems.ProtectsNext | gammu-1.42.0/helper/message-cmdline.c:934-1025 | with n entries to protect, an entry is protected if and only if its item can be and fewer than n before it can |
| Ems.ProtectMarksNext | gammu-1.42.0/helper/message-cmdline.c:1222-1225 | "-protected n" protects exactly the first n of the following items that can be protected |
| Ledger.Database.LoadWallet | app/handlers/flutterwave.py:11-57 | a funding is recorded, not processed, only when all fields are given, for a known user and an initialised payment; otherwise nothing changes |
| Ledger.Database.ReceiveIntoCentral | app/handlers/monnify.py:118-137 | a payment is recorded as not processed and added to the central account, which is created if need be |
| Ledger.Database.Distribute | app/handlers/monnify.py:162-193 | the wallet grows by the amount, a distribution is recorded, the payment is marked and the central account gives the amount up |
| Ledger.Database.MonnifyPaymentComplete | app/handlers/monnify.py:79-207 | the whole new state, for ignored, duplicate, unmatched and matched payments |
| Ledger.Database.FlutterwaveWebhook | app/handlers/flutterwave.py:81-166 | the whole new state and the answer; a reference already logged undoes everything |
| Ledger.Database.PaymentWebhook | app/handlers/paystark_routes.py:10-59 | the whole new state and the answer; a reference already logged undoes everything |
| Ledger.Database.DebitFromDb | app/database/wallet.py:30-45 | the amount is taken exactly if the wallet exists and holds it |
| Ledger.Database.ProcessVendorPayout | app/database/wallet.py:60-157 | without a vendor nothing happens; the provider used is the first that does not fail; the payout is completed exactly when there is one and the wallet could pay |
| Ledger.FlutterwaveTotals | app/handlers/flutterwave.py:123-154 | the webhook only moves money, and never makes the Moniepoint balance negative |
| Ledger.MonnifyTotals | app/handlers/monnify.py:118-193 | an accepted payment adds its amount to the money held, once, matched or not |
| Ledger.PaystackTotals | app/handlers/paystark_routes.py:37-57 | an accepted webhook adds the verified amount |
| Ledger.StepConserves | app/handlers/monnify.py:79-207 | whatever the request, the money held changes by what the records then say |
| Ledger.StepDistinct | app/database/wallet.py:54-54 | no request records a payment reference or a log reference twice |
| Ledger.RunConserves | app/handlers/monnify.py:110-193 | after any run, central and wallet balances equal the starting total plus each recorded incoming reference once plus each funded reference once less the completed payouts |
| Ledger.StepReceives | app/handlers/monnify.py:79-207 | the same in terms of the request: the accepted amount comes in, a debit goes out, nothing else |
| Ledger.ReceivedOnce | app/handlers/monnify.py:107-116 | over a whole run a reference brings in money at most once on each channel, and nothing once it is used: received, or, for Monnify, the reference of a funding that was started |
| Ledger.DroppedIff | app/handlers/monnify.py:107-116 | the notification of a payment not received before is dropped if and only if a funding through Monnify was started under its reference |
| Ledger.DroppedAfterRunIff | app/handlers/monnify.py:30-116 | after any run from an empty database, such a notification is dropped if and only if the run started such a funding |
| Ledger.RunReceives | app/handlers/paystark_routes.py:34-57 | over any run the balances change by the accepted amounts less the debits, and no reference, however often delivered, counts twice |
| Ledger.StepKeepsCentral | app/handlers/monnify.py:118-193 | no request, of any kind, breaks the central invariant |
| Ledger.RunKeepsCentral | app/handlers/monnify.py:118-193 | at every request boundary the "monnify" balance is the sum of the unprocessed incoming payments, each processed one has exactly one distribution of its amount, and each distribution a payment |
| Ledger.RunKeepsNonNegative | app/database/wallet.py:30-45 | no run makes a wallet negative, whatever amounts payouts ask for |
| Ledger.DebitOnlyByAcceptedPayout | app/database/wallet.py:125-148 | a wallet only shrinks by an accepted payout of its owner, by its amount, logged as completed |
| Ledger.CreditOnlyByPayment | app/handlers/paystark_routes.py:34-57 | a wallet only grows by a new matched payment, or by its owner's own pending transaction, which is then processed |
| Ledger.WalletMovesIff | app/handlers/monnify.py:100-193 | a wallet changes by an amount if and only if the request moves it there: a paid notification not seen before and matched to the user, a verified webhook for the user's own open transaction with free references (and enough in the central account for Flutterwave), or a new payout that some provider accepts and the wallet holds; no other wallet changes |
| Ledger.MoveRecorded | app/handlers/monnify.py:118-193 | with the wallet, the rows, the log and the central accounts change as they should: a matched payment is recorded as processed with its distribution and leaves the central balance as it was, a webhook marks its transaction and logs it, Flutterwave takes the amount out of the central account, a payout is logged as completed |
| Ledger.RecordedWithoutMove | app/handlers/monnify.py:79-160 | a request that moves nothing starts a funding, receives an unmatched payment into the central account, logs a failed payout, or changes nothing |
| Ledger.FundingArrives | app/handlers/paystark_routes.py:28-57 | a funding that is started and confirmed arrives in the wallet, and confirming it again changes nothing |
| Ledger.RunCompleted | app/database/wallet.py:134-148 | completed payouts of a run add up to what was debited |
| Ledger.PaidButNotDebited | app/database/wallet.py:134-145 | a new payout is paid without a debit exactly when a provider accepts it and the wallet is missing or too low |
| Ledger.PayoutsBalanceIff | app/database/wallet.py:86-148 | over a run of positive payouts, vendors received what wallets paid if and only if each new payout that a provider accepts finds its wallet holding the amount |
| Ledger.UncoveredPayout | app/database/wallet.py:134-145 | an example: 50 paid out, nothing debited from a wallet of 10 |
| FundingRace.NextRecorded | app/handlers/paystark_routes.py:28-57 | no step of any delivery logs a reference twice, and every funding is of a marked transaction, under the reference of its payment |
| FundingRace.NextFundedOnceIff | app/handlers/flutterwave.py:105-154 | one step funds a payment a second time exactly when it commits, with its own references free, for a payment already marked |
| FundingRace.FundedOnceIff | app/handlers/flutterwave.py:105-154 | over any schedule of both webhooks, each payment is funded at most once if and only if no delivery commits, with its own references free, for a payment marked by then |
| FundingRace.OneHookFundsOnce | app/handlers/paystark_routes.py:28-57 | when only one of the webhooks delivers, each payment is funded at most once, whatever the interleaving |
| FundingRace.AloneFunds | app/handlers/paystark_routes.py:28-57 | from any state, a delivery of either webhook for an open transaction that nothing interrupts adds its amount to the wallet, marks the transaction and logs it under the webhook's references |
| FundingRace.CheckingIs | app/handlers/paystark_routes.py:28-35 | reading a transaction and checking its flag lets a delivery go on exactly if the transaction is not marked, and changes nothing else |
| FundingRace.NeverNegative | app/database/wallet.py:30-45 | no interleaving, with or without lost updates, makes a wallet negative |
| FundingRace.BothHooksFund | app/handlers/flutterwave.py:110-154 | from any state, a Paystack delivery between the check and the write of a Flutterwave delivery for the same open payment funds it a second time, though no write is stale: the wallet grows by both amounts |
| FundingRace.NextKeeps | app/handlers/paystark_routes.py:28-57 | every step of every delivery, of an abort and of a payout keeps balances and locks consistent, unless it is a stale write |
| FundingRace.WriteBalancesIff | app/handlers/flutterwave.py:119-154 | a write without a lock keeps the balances right if and only if the wallet is as it was read |
| FundingRace.RunKeeps | app/handlers/paystark_routes.py:28-57 | so does every interleaving without a stale write |
| FundingRace.AtMostOnce | app/handlers/paystark_routes.py:28-57 | under every interleaving of deliveries and payouts, each webhook funds a payment at most once; both together do exactly if none commits for a payment that was marked after its check; and without a stale write each wallet holds its opening balance plus the logged fundings less payouts |
| FundingRace.BalancedIffNoStaleWrite | app/handlers/flutterwave.py:119-154 | the wallets are right after every step if and only if no webhook without a lock writes a wallet that changed since it was read |
| FundingRace.PayoutLost | app/handlers/flutterwave.py:119-154 | an example: a payout between the read and the write is lost |
| FundingRace.CommittingCreditIsUnsafe | app/database/wallet.py:22-26 | if the credit committed by itself, two deliveries of one open payment could credit it twice and log it once, from any state |
| FundingRace.SafeIffInMemory | app/database/wallet.py:22-26 | without stale writes, wallets hold what the log says from every initial state if and only if the credit stays in memory until the commit |
| Chat.WhatsApp.constructor | app/whatsapp/whatsapphandler.py:106-112 | no sessions, nothing ordered |
| Chat.WhatsApp.SaveSession | app/whatsapp/whatsapphandler.py:127-128 | one phone's session is saved and nothing else changes |
| Chat.WhatsApp.Total | app/whatsapp/whatsapphandler.py:223-223 | the sum of quantity times price |
| Chat.WhatsApp.PlaceOrder | app/whatsapp/whatsapphandler.py:240-293 | what an agreed order leaves behind, wherever a helper fails on the way |
| Chat.WhatsApp.Run | app/whatsapp/whatsapphandler.py:118-298 | one message changes the session and what was ordered, charged and delivered exactly as `Step` says, and needs no field a session may lack |
| Chat.OrderPlaced | app/whatsapp/whatsapphandler.py:118-293 | from the menu, where every new phone starts, the five answers of an order place exactly one order with the vendor, items and address given, charge the sum of quantity times price once, create one delivery, and lead back to the menu |
| Chat.OwnMessagesOnly | app/whatsapp/whatsapphandler.py:106-128 | what a customer sees after any messages from any phones is what the own messages alone lead to |
| Chat.OrderPlacedAmongOthers | app/whatsapp/whatsapphandler.py:118-293 | however messages of other phones come in between, those five answers give the customer exactly that one order, charge and delivery |
| Chat.ConfirmOutcome | app/whatsapp/whatsapphandler.py:233-293 | what a confirmation leaves behind, for a payment that is refused and for each helper that can fail |
| Chat.UnchangedIff | app/whatsapp/whatsapphandler.py:121-293 | a message changes nothing if and only if it is not an answer its session waits for: no command of the menu, no known vendor, items not sold, an address under four characters, or an order that cannot be built |
| Chat.OnlyMoves | app/whatsapp/whatsapphandler.py:144-158 | the tracking question and back, a declined order and an unknown state only move the session |
| Chat.SumIsCost | app/whatsapp/whatsapphandler.py:223-223 | the total is the sum of quantity times price |
| Chat.LoadReady | app/whatsapp/whatsapphandler.py:106-112 | in any reachable state the fields the session's state reads are there |
| Chat.StepKeeps | app/whatsapp/whatsapphandler.py:118-298 | every message keeps sessions consistent: validated items for the current vendor, an address, the right total |
| Chat.RunKeeps | app/whatsapp/whatsapphandler.py:118-298 | over any messages from any phones, every charge is the total of an order's validated items, no order is charged twice, and every delivery was paid |
| Chat.RunCounts | app/whatsapp/whatsapphandler.py:249-293 | charges exceed deliveries by exactly the payments followed by a failing helper, and orders exceed charges by exactly the failed payments |
| Chat.DeliveriesMatchPaymentsIff | app/whatsapp/whatsapphandler.py:249-293 | deliveries equal payments if and only if no helper fails between payment and delivery |
| Chat.ChargedAndWaitingIff | app/whatsapp/whatsapphandler.py:256-293 | a confirmation is charged and the session still waits for one if and only if the payment is accepted and a later helper fails |
| Chat.OncePerWaitIff | app/whatsapp/whatsapphandler.py:233-293 | over any run, each wait of a session for a confirmation is charged at most once if and only if no such message is followed by another accepted confirmation before the session leaves the wait |
| Chat.RetryChargesAgain | app/whatsapp/whatsapphandler.py:256-293 | two confirmations that charge the same total twice |

## Left out

- Irda.Decoder.DecodeInput: the message buffer is an unbounded sequence. The MBUS2 buffer is an array large enough for
  every length field; `sniff.c` itself never allocates either, and the headers with the constants are not part of this
  model beyond the byte values used.
- Mbus2.Decoder.DecodeInput: printing and dispatching a message is one event appended to a report.
- Playlist.FreeName: folder listings are complete and stay the same during the search, and case folding is any function
  that keeps digits apart; the 500-byte name buffer is not modelled.
- Playlist.AddPlaylist: collecting the songs from the folder, changing drive letters, sending the file and descending
  into subfolders are not modelled.
- Composer.Compose: applies to ringtones for which the loops end (`Composer.AllLoopsEndIff`); printing the notes first
  and the warning after 50 notes are not modelled.
- Jad.RewriteJad: what the program does once it has left the file (`nokia.c:722-737`, when there is no size line) is
  not modelled. The 10000-byte work buffer is assumed large enough, and the rest of the JAD data, the JAR file and
  sending are left out.
- Phonebook.ReadPhonebook: next-entry queries answer in ascending order of location; the question, the callback,
  progress and other read errors are not modelled.
- Phonebook.Restore: the only failing writes and deletions are those beyond the phone's last location; the retry for
  caller groups is not modelled.
- Todo.Restore: writes succeed and there is room for the backup; the question, progress and other errors are not
  modelled.
- The SIM phonebook, calendar, notes and the other sections of backup and restore, which repeat the pattern.
- Batch.RunBatch: what happens after the argument vector has overflowed, which is all that a line of more than 19
  arguments does in the model; running a command is one element of a list.
- Batch.LineRoundTripIff: has no limit on the number of arguments; `Batch.FileRoundTripIff` has.
- Help.HelpSplit: the fixed buffers of 50 and 500 characters are not modelled; the `VersionToInt` encoder is left out
  as an easy sum.
- Ems.MessageComposer.Compose: at most as many entries as the program has room for; files are known by what reading
  them gives; numbers out of the machine's range and allocation failures are not modelled. "-format"
  before any entry, where the code looks before the array, is an error here.
- Ems.OptionsRoundTrip: animations are rendered with no more files than needed, since later files would be read as
  options, and with enough of them, since otherwise options would be read as files. Numbers are written in decimal;
  `Ems.GetIntIff` says what else is read as one.
- Ems.MessageComposer.constructor: who the message is for, and whether the number of its centre is asked from the phone,
  is decided before the options and is an input.
- Ledger.RunConserves: amounts are integers, not floats; requests are complete, one after the other, without a crash
  between the two commits of the Monnify handler and of a payout. The status "processing" of a payout under way is not
  kept.
- Ledger.Database.MonnifyPaymentComplete: matching a customer name, verifying with a provider and which row `.first()`
  returns are inputs; JSON, signatures and notifications are left out.
- Ledger.Database.PaymentWebhook: `session`, which the handler uses without defining it, is taken as the database
  session, and the columns of the transaction models are taken as the handlers use them.
- The other handlers that charge or credit wallets (`app/handlers/wallet.py`, `wallet_controller.py`,
  `payment_wallet.py`, `whatsapp_pay_handler.py`, `app/utils/sms_processor`).
- FundingRace.AtMostOnce: of the database, only row locks, atomic commit and the unique reference are modelled. The
  central account that the Flutterwave webhook debits, and two Monnify requests checking for duplicates at the same
  time, are not part of the interleavings.
- Chat.WhatsApp.Run: creating the user, payment links, message texts and the broadcast are left out; helper modules
  that are not in the repository are functions or inputs, helpers may fail only during a confirmation, and lower case
  is that of ASCII.
- Display commands, phone access, Flask routing, authentication, chat trimming, vendor search and caches.
