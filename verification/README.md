# Verified models of the display, camera and scaler code

This project models the parts of the repository with the most state and arithmetic, and proves
what each of them is for. `dafny verify dfyconfig.toml` checks all of it.

| files | what they model |
|---|---|
| `CText`, `Dictionary`, `HashBits`, `IniLine`, `IniLoad`, `IniDump`, `IniReload`, `IniRoundTrip`, `IniFlat`, `IniFlatSurvival` | the INI store of `libs/libini`: the hashed dictionary and its hash bit by bit, the line grammar with its two buffers, the loader, the enumerations, the printer, and the round trip |
| `Compositor`, `HwcContext`, `CompositorOwnership`, `CompositorDisplay`, `CompositorSuperseded`, `CompositorDestination`, `CompositorCommit`, `CompositorMessages`, `CompositorExamples` | the overlay table of `apps/display/hwcomposer/hwcomposer.c`, who owns each descriptor, what each message and each commit does under every answer of the driver, what a PLAY may close, and two runs step by step |
| `EncoderHandoff`, `CaptureStream` | the mutex and condition-variable hand-off of `apps/isp/vid-enc.c`, the buffer loop of `apps/isp/stream.c`, and both together |
| `ScalerSession`, `ScalerHistory` | the handles of `libs/libmscaler/mscaler.c` against one driver lock, and what a handle answers by the calls made on it |
| `ImageLayout`, `StridedTransfer` | two computations of an image's memory layout, and the strided file transfer of `apps/mscaler/test.c` |
| `CropTransform`, `Adam7` | `pre_rotate_source` of `libs/libhwc` and the interlacing macros of `png.h` |
| `Common` | an optional value and the size of a 32-bit word |

Where the source updates an object or a buffer in place, a class or an array is updated in place
here, and each method is tied to a function of the old state; the properties are lemmas about
those functions and about runs of them. The two threads of the encoder, the capture loop and the
clients of the compositor are state machines whose runs are any interleaving of their steps.

## What the code turned out to do

- The line parser sizes its key buffer by the text before the first `=`
  (`libs/libini/iniparser.c:587`), and the section branch stores the whole bracketed name there
  (`libs/libini/iniparser.c:608-614`). A name longer than that text is written past the end of
  the buffer. `OverrunLine` and `OverrunIff` say exactly when; `[=ab]` is one such line
  (`OverrunExample`), and the dictionary whose only section is `=ab` prints it
  (`DumpOverrunExample`). So the round trip is stated for sections with no `=`, or none but the
  last character, which are exactly the ones whose header can be read (`SectionLine`). Key and
  value of an assignment always fit (`ScansFit`).
- Load returns NULL on a syntax error only if no section line and no value line follows it: the
  result of `dictionary_set` overwrites the error count (`libs/libini/iniparser.c:813` and
  `libs/libini/iniparser.c:830`). The documentation does not say so. `NullIff` is exact, and
  `SyntaxErrorForgotten` gives a file.
- Splitting a line with backslash-newline is invisible also when blanks stand before the
  backslash; they stay in the value. Only the last piece must not be blank: an empty one joins the
  line to the next (`EmptyPieceJoins`, `EmptyPieceMatters`).
- A last line without a newline is read like any other, unless it is a single character: that one is
  not looked at (`NoFinalNewline`, `LastCharacterIgnored`).
- A dictionary without sections does not survive the round trip unless it is empty, whatever its
  keys and values are (`FlatSurvivesIff`), and neither does one whose sections hold values
  (`RoundTripIff`).
- The result of queueing graphics layer i is stored in `vid_cfg[i].status`
  (`apps/display/hwcomposer/hwcomposer.c:370`). The model keeps that write; with i == 2 it lands
  in the first graphics slot, the next member of the context. So a rejected graphics layer keeps
  a good status and another slot gets the bad one (`StatusGoesAstray`), which is then neither
  configured nor queued (`BadStatusIdles`). Ownership holds all the same.
- A PLAY without planes after a PLAY with planes defeats the display: the commit then finds
  nothing to queue, still swaps, and the next PLAY closes what is on display (the run of
  `DisplayClosed`). One PLAY with a plane between commits is therefore not enough; the last one
  has to have a plane (`FedDisplayStaysAlive`), and `NextPlayHarmlessIff` gives the exact
  condition for one commit.
- In such runs a PLAY closes only planes that were brought since the last commit and so never
  queued (`OnlySupersededClosed`). That is not so for destination descriptors: one is queued with
  its plane, stays behind when the plane is spent, and is closed by a later PLAY
  (`DestinationClosed`). A destination that a PLAY closes had been queued exactly when the PLAY
  that brought it had a plane and a commit came in between (`ClosedDestinationQueuedIff`, in every
  run in which the driver succeeds).
- A stop request that arrives while a frame is pending can leave the producer waiting for ever
  (the run of `StrandedReached`). Otherwise every call ends: a call never returns exactly when
  the encoder leaves with its frame pending (`CallsEnd`, `NeverReturnsIff`).
- `scalerLock` returns 0 to an idle handle even when the ioctl fails
  (`libs/libmscaler/mscaler.c:338`), although the comment at lines 1005-1009 offers the call as the
  way to find out whether the scaler is free. State properties are stated on the handle's state.
- After a stop that failed midway the streaming flag is still set, and the next run reports
  success with the source queue off (`HalfStoppedRuns`; `HalfStopReached` is a run that gets there).
- The offsets of a contiguous image wrap at 2^32 bytes. The components are disjoint exactly when
  the offset of the last one does not (`RangesDisjointIff`). At the accepted sizes and alignments
  up to a page it never does (`RangesDisjoint`); `NV12Overlaps` is an image of the application's
  table where it does.

## Readings of the source

- A write past the end of a buffer ends the meaning of a call: what the memory behind it holds is
  not modelled, and nothing is said about the call's result.
- Text is NUL-free; plain `char` is unsigned, as on ARM; `isspace` and `tolower` are those of the
  C locale. `%s` of a NULL string prints `(null)`, as in glibc.
- A physical line of blanks only makes the loader look at `line[-1]`
  (`libs/libini/iniparser.c:756`); the model takes it as no continuation.
- In the round trip a well-named dictionary has only keys `section:name` with the section stored;
  names are non-empty, trimmed, lower case and without newline; a section has no `:` or `]`, and no
  `=` but as its last character; a name has no `=` and does not start with `#`, `;` or `[`.
- Application ids are not 0, `num_plane` is at most 3, the received descriptors are positive,
  distinct and not open already, and one more comes with a destination buffer. A descriptor
  number may be received again after it was closed.
- In the encoder one step is one statement of one thread; the mutex is held by at most one
  thread, a waiting thread releases it and can be woken at any time.
- Driver, `poll`, `read` and `write` answer through arguments: the answers range over everything
  the source distinguishes.
- Crop coordinates are read as 32-bit words. The passes of `png.h` are counted in 32-bit
  arithmetic, so sizes go up to 2^32 - 8, beyond the 2^31 - 1 of PNG.

## Model

| member | source | states |
|---|---|---|
| `CText.StrStrip` | libs/libini/iniparser.c:64-80 | rewrites the buffer in place so that its C string is the old one without the blanks at both ends, and touches nothing after the old terminator |
| `CText.StrLwc` | libs/libini/iniparser.c:42-52 | lower-cases the C string in place and leaves every byte from the terminator on alone |
| `CText.TrimSplits` | libs/libini/iniparser.c:64-80 | every string is blanks, the trimmed core, blanks; the core has no blank at either end |
| `CText.TrimPadded` | libs/libini/iniparser.c:64-80 | a trimmed text comes back whole from any blanks around it |
| `CText.SpaceIs` | libs/libini/iniparser.c:64-80 | the characters stripped are the six blanks of the C locale |
| `CText.LowerIs` | libs/libini/iniparser.c:42-52 | lower-casing maps the alphabet letter by letter and leaves every other character alone |
| `Dictionary.DictionaryHash` | libs/libini/dictionary.c:91-107 | the hash loop computes the 32-bit one-at-a-time hash of the key |
| `HashBits.HashIs` | libs/libini/dictionary.c:91-107 | that arithmetic is the source's additions, shifts by 10, 6, 3, 11 and 15 and exclusive ors on 32-bit words, written out bit by bit |
| `Dictionary.MemDouble` | libs/libini/dictionary.c:38-49 | a fresh block of twice the size: the old elements in order, then zeroes |
| `Dictionary.Dict.constructor` | libs/libini/dictionary.c:120-136 | an empty dictionary of at least 128 free slots whose three arrays agree |
| `Dictionary.Dict.Search` | libs/libini/dictionary.c:179-197 | comparing cached hashes before keys finds exactly the slot of the key, or none: the hash check never hides a key |
| `Dictionary.Dict.Get` | libs/libini/dictionary.c:179-197 | the stored value or the default |
| `Dictionary.Dict.Double` | libs/libini/dictionary.c:253-265 | doubling keeps every slot at its index with its key, value and cached hash, and adds free slots |
| `Dictionary.Dict.FindFree` | libs/libini/dictionary.c:267-272 | the probe from slot n wraps round and stops in fewer than size steps at the first free slot |
| `Dictionary.Dict.Set` | libs/libini/dictionary.c:225-279 | -1 and no change for a NULL key; otherwise the slots become those of the specification, arrays, count and hashes in step |
| `Dictionary.Dict.Unset` | libs/libini/dictionary.c:292-327 | frees exactly the slot of the key and keeps arrays, count and hashes in step |
| `Dictionary.FullMeansFull` | libs/libini/dictionary.c:253-272 | pigeonhole: the count reaches the size exactly when no slot is free |
| `Dictionary.GrownContents` | libs/libini/dictionary.c:38-49 | doubling preserves every binding |
| `Dictionary.GetRefinesMap` | libs/libini/dictionary.c:179-197 | a get on the slots is a lookup in the map they denote |
| `Dictionary.SetRefinesMap` | libs/libini/dictionary.c:225-279 | a set is map update, moves no other binding, keeps keys distinct and counts exactly the new keys |
| `Dictionary.GrowsWhenFull` | libs/libini/dictionary.c:253-265 | the table doubles exactly when a new key finds every slot used |
| `Dictionary.NewKeyLands` | libs/libini/dictionary.c:267-279 | a new key goes to the first free slot from the count on, wrapping round, and no other slot changes |
| `Dictionary.UnsetRefinesMap` | libs/libini/dictionary.c:292-327 | an unset is map removal and the count follows |
| `Dictionary.RunRefinesMap` | libs/libini/dictionary.c:179-327 | over any sequence of set, unset and get the slots denote the map the same operations build, and every get answers as that map does |
| `Dictionary.RunFromNew` | libs/libini/dictionary.c:120-327 | the run theorem from dictionary_new, for every requested size; n is the number of bindings |
| `Dictionary.ContentsSize` | libs/libini/dictionary.c:292-327 | the map has one binding for each occupied slot |
| `IniLine.ParseLine` | libs/libini/iniparser.c:557-673 | the line parser on its stripped copy and on key and value buffers of the source's sizes returns the line of the grammar, and writes past a buffer exactly where the grammar says so |
| `IniLine.FinishValue` | libs/libini/iniparser.c:617-653 | stripping and lower-casing the key and stripping the value in their buffers, and the two spellings of an empty value |
| `IniLine.ScanInto` | libs/libini/iniparser.c:617-650 | one sscanf with a key format into the two buffers: the texts it assigns fit, and the buffers then hold them |
| `IniLine.ScansFit` | libs/libini/iniparser.c:584-650 | what any of the five key formats stores fits the key and value buffers, terminator included, on every line with an `=` |
| `IniLine.RoomsAre` | libs/libini/iniparser.c:584-587 | the sizes of the two buffers by the parts of the line |
| `IniLine.AssignmentLine` | libs/libini/iniparser.c:617-653 | the five sscanf formats together read every line with a key before its first `=`, and deliver the trimmed lower-case key and the value after the `=` |
| `IniLine.ErrorLine` | libs/libini/iniparser.c:602-657 | a line is a syntax error exactly when it is not blank, not a comment, not bracketed, and has no key before an `=` |
| `IniLine.LineKind` | libs/libini/iniparser.c:602-657 | which lines are blank, comments, section lines and value lines, by the first and last character and the first `=` |
| `IniLine.OverrunLine` | libs/libini/iniparser.c:584-616 | a line is written past the key buffer exactly when it is bracketed, has an `=`, and its name up to the first `]` is longer than the text before the first `=` |
| `IniLine.OverrunExample` | libs/libini/iniparser.c:584-616 | the header `[=ab]` stores three characters and a terminator in a key buffer of two bytes |
| `IniLine.SectionLine` | libs/libini/iniparser.c:608-616 | a bracketed trimmed lower-case name is a section line carrying that name, unless it has an `=` before its last character: then it is written past the key buffer |
| `IniLine.SectionName` | libs/libini/iniparser.c:608-616 | a bracketed name in any case, with blanks around it and anything up to a last bracket behind it, is the section of that name in lower case |
| `IniLine.AnyCaseSection` | libs/libini/iniparser.c:608-616 | `[Video]` is the section `video`: every trimmed name without `]` and `=` is lower-cased |
| `IniLine.PlainValueIff` | libs/libini/iniparser.c:617-653 | a value is read back as itself exactly when it is trimmed, free of `;` and `#`, and does not open with a quote the grammar would take off |
| `IniLine.CommentedValue` | libs/libini/iniparser.c:617-653 | a comment is cut off a value together with the blanks before it |
| `IniLine.QuotedValue` | libs/libini/iniparser.c:617-653 | quotes are taken off with the blanks inside them and all that follows the closing one, which may be missing |
| `IniLine.EmptyQuotes` | libs/libini/iniparser.c:617-653 | two quotes with nothing between them, and perhaps a comment behind, are the empty value |
| `IniLoad.IniparserLoad` | libs/libini/iniparser.c:689-886 | writes past a buffer or returns NULL exactly when the specification says so, else a fresh dictionary denoting the map of the file |
| `IniLoad.ReadPhysical` | libs/libini/iniparser.c:720-801 | one fgets, the overflow check, the strip and the joining of continuation text keep the logical lines still to come |
| `IniLoad.StripEnd` | libs/libini/iniparser.c:748-753 | cuts the newline and the blanks at the end of a physical line |
| `IniLoad.StoreLine` | libs/libini/iniparser.c:803-846 | one parsed line changes section, dictionary and error count as the fold does |
| `IniLoad.KeysWritten` | libs/libini/iniparser.c:803-846 | the loaded dictionary has exactly the keys some line writes, each qualified by the last section line before it |
| `IniLoad.LastWriterWins` | libs/libini/iniparser.c:803-846 | every key has the value of the last line that writes it |
| `IniLoad.LoadedKeys` | libs/libini/iniparser.c:689-886 | the dictionary of a file that loads has exactly the keys some line of the file writes |
| `IniLoad.LoadedValue` | libs/libini/iniparser.c:689-886 | and each has the value of the last line that writes it |
| `IniLoad.LoadedNamesLower` | libs/libini/iniparser.c:557-886 | every section and key of a loaded dictionary is in lower case, however the file spells it |
| `IniLoad.ErrorsLeft` | libs/libini/iniparser.c:808-842 | an error count remains exactly when some syntax error has no section or value line after it: the result code of dictionary_set overwrites the count |
| `IniLoad.NullIff` | libs/libini/iniparser.c:739-860 | load returns NULL exactly when no line is written past a buffer and a physical line overflows the line buffer or such an error remains |
| `IniLoad.SyntaxErrorForgotten` | libs/libini/iniparser.c:808-842 | a file whose first line is a syntax error still loads when a section line follows |
| `IniLoad.OverrunIff` | libs/libini/iniparser.c:584-616 | loading a file writes past a buffer exactly when one of the logical lines it reads is such a line |
| `IniLoad.HeaderOverruns` | libs/libini/iniparser.c:584-616 | a file that begins with the header of a name with an `=` before its last character is one, whatever follows |
| `IniLoad.ReadLine` | libs/libini/iniparser.c:720-801 | a physical line that fits either extends the pending text or ends the logical line |
| `IniLoad.ReadTooLong` | libs/libini/iniparser.c:739-747 | a physical line of more than 1022 characters before its newline makes the file unreadable |
| `IniLoad.LastLine` | libs/libini/iniparser.c:720-801 | a last physical line without a newline is read as with one, is skipped when it is a single character, and makes the file unreadable when it has more than 1022 |
| `IniLoad.NoFinalNewline` | libs/libini/iniparser.c:720-856 | a file loads the same with and without the newline of its last line |
| `IniLoad.LastCharacterIgnored` | libs/libini/iniparser.c:736-737 | a single last character without a newline changes nothing |
| `IniLoad.PieceIs` | libs/libini/iniparser.c:748-763 | what a physical line adds: its text up to the blanks at its end, less a final backslash, which makes it continue |
| `IniLoad.SplitLine` | libs/libini/iniparser.c:755-801 | pieces joined by backslash-newline, the last of them not blank, are read as the one line they make |
| `IniLoad.SplittingIsInvisible` | libs/libini/iniparser.c:720-856 | breaking a logical line anywhere in a file into pieces with backslash-newline, the last of them not blank, leaves the loaded dictionary unchanged |
| `IniLoad.EmptyPieceJoins` | libs/libini/iniparser.c:736-801 | an empty last piece does not end the logical line: what follows it in the file is read as a continuation |
| `IniLoad.EmptyPieceMatters` | libs/libini/iniparser.c:755-801 | an empty last piece is not invisible: one file whose loaded value changes |
| `IniDump.IniparserGetNSec` | libs/libini/iniparser.c:100-115 | the number of colon-free keys, -1 for NULL |
| `IniDump.IniparserGetSecName` | libs/libini/iniparser.c:131-151 | the n-th section name, NULL for a negative n and past the last |
| `IniDump.IniparserFindEntry` | libs/libini/iniparser.c:494-504 | true exactly when the lower-cased name is stored |
| `IniDump.IniparserGetSecNKeys` | libs/libini/iniparser.c:268-292 | the number of keys with the section's prefix, 0 for NULL or an absent section |
| `IniDump.IniparserGetSecKeys` | libs/libini/iniparser.c:308-343 | the array sized by the counting pass is filled exactly, in slot order, by the second pass; the source compares with the name as given, so a name stored in lower case is what a caller must pass |
| `IniDump.FillKeys` | libs/libini/iniparser.c:332-341 | the filling pass never leaves the array and fills it |
| `IniDump.SecNamesExact` | libs/libini/iniparser.c:100-151 | a name is listed exactly when it is a stored key without a colon |
| `IniDump.SecNamesInOrder` | libs/libini/iniparser.c:131-151 | each section is listed once, in slot order |
| `IniDump.SecKeysExact` | libs/libini/iniparser.c:268-343 | the keys of a section are exactly the stored keys that begin with `section:` |
| `IniDump.SecKeysOnce` | libs/libini/iniparser.c:308-343 | no key is listed twice |
| `IniDump.SecKeysInOrder` | libs/libini/iniparser.c:308-343 | the keys of a section come in slot order |
| `IniDump.FindEntryIff` | libs/libini/iniparser.c:494-504 | a name is found exactly when its lower-case spelling is stored |
| `IniDump.IniparserDumpIni` | libs/libini/iniparser.c:194-218 | prints the specified text: the section blocks in order, or every entry when there is no section |
| `IniDump.IniparserDumpSectionIni` | libs/libini/iniparser.c:232-258 | prints a header and the entries of the section, or nothing when the section is not stored |
| `IniDump.SectionTextLists` | libs/libini/iniparser.c:232-258 | the printed text of a section: an empty line, its header, one line for each key the enumeration lists, in its order, with the value a lookup gives, and an empty line |
| `IniDump.EntryColumns` | libs/libini/iniparser.c:248-255 | a printed entry has its name in a column of 30 characters or more, the separator, and its value, nothing for NULL |
| `IniDump.FlatTextLists` | libs/libini/iniparser.c:201-210 | without sections every stored key is printed in full, in slot order, with its value |
| `IniReload.LineParses` | libs/libini/iniparser.c:557-673 | a printed line parses to its own name and to the value with trailing blanks, comments and quotes taken off |
| `IniReload.RereadIff` | libs/libini/iniparser.c:557-673 | a printed value is read back unchanged exactly when it is plain |
| `IniReload.ReloadsExactly` | libs/libini/iniparser.c:194-886 | for a well-named dictionary whose lines can be read, loading the printed text gives its sections and each entry with its re-read value |
| `IniReload.DumpOverruns` | libs/libini/iniparser.c:194-258 | a dictionary with a section name that has an `=` before its last character, the sections before it readable, prints a text whose load writes past the key buffer |
| `IniReload.DumpOverrunExample` | libs/libini/iniparser.c:194-258 | the dictionary of the one section `=ab` is one |
| `IniReload.LoadedFound` | libs/libini/iniparser.c:494-886 | every section and key of a loaded dictionary is found under any spelling of its name |
| `IniRoundTrip.RoundTripIff` | libs/libini/iniparser.c:194-886 | a well-named dictionary loads back equal from its own printed text exactly when every section holds NULL and every value is plain, single-line, without a final backslash, on a line that fits the buffer |
| `IniRoundTrip.DumpThenLoad` | libs/libini/iniparser.c:194-886 | the two methods run together: exactly under that condition no buffer is overrun and the copy is equal |
| `IniRoundTrip.LongLoadsNull` | libs/libini/iniparser.c:739-747 | one printed line that overflows the buffer makes the whole dump unloadable: no dictionary comes back |
| `IniRoundTrip.LoadedCount` | libs/libini/iniparser.c:720-856 | a dump loads to at most as many keys as it prints lines that stand alone |
| `IniRoundTrip.BackslashLoses` | libs/libini/iniparser.c:755-801 | a value ending in a backslash swallows the next line, so fewer such lines are printed than there are entries |
| `IniFlat.FlatReloads` | libs/libini/iniparser.c:194-218 | a dictionary without sections whose keys read back as names and whose values stay on lines that fit loads back with every key behind a colon |
| `IniFlatSurvival.FlatSurvivesIff` | libs/libini/iniparser.c:194-886 | every dictionary without sections, whatever its keys and values, survives the round trip exactly when it is empty |
| `HwcContext.Context.FindRegisteredOverlay` | apps/display/hwcomposer/hwcomposer.c:129-151 | the first slot of the application, over the video, graphics and framebuffer slots |
| `HwcContext.Context.FindEmptyOverlay` | apps/display/hwcomposer/hwcomposer.c:153-181 | the first free slot of the pipe's own range |
| `HwcContext.Context.RegisterOverlayCfg` | apps/display/hwcomposer/hwcomposer.c:183-212 | the table after SET, with the ownership invariant kept |
| `HwcContext.Context.RegisterOverlayData` | apps/display/hwcomposer/hwcomposer.c:214-263 | the table and descriptors after PLAY, accepted or rejected, with the invariant kept |
| `HwcContext.Context.UnregisterOverlayCfg` | apps/display/hwcomposer/hwcomposer.c:265-281 | the table and descriptors after UNSET, with the invariant kept |
| `HwcContext.Context.CommitBody` | apps/display/hwcomposer/hwcomposer.c:324-396 | the table and descriptors after the slot loops of one commit, with the invariant kept |
| `CompositorOwnership.SetKeeps` | apps/display/hwcomposer/hwcomposer.c:183-212 | SET keeps ownership and one slot per application |
| `CompositorOwnership.PlayKeeps` | apps/display/hwcomposer/hwcomposer.c:214-263 | PLAY keeps ownership, whether it is accepted or rejected |
| `CompositorOwnership.UnsetKeeps` | apps/display/hwcomposer/hwcomposer.c:265-281 | UNSET keeps ownership, counting what it leaves open as abandoned |
| `CompositorOwnership.CommitKeeps` | apps/display/hwcomposer/hwcomposer.c:324-396 | a commit keeps ownership under every answer of the driver; no descriptor is closed twice and none is queued closed |
| `CompositorOwnership.NamedOpen` | apps/display/hwcomposer/hwcomposer.c:337-342 | every descriptor of data about to be queued is open |
| `CompositorOwnership.RunInv` | apps/display/hwcomposer/hwcomposer.c:129-396 | at every point of every interleaving each received descriptor is as often held, closed and abandoned as it was received, and is open exactly when it is held or abandoned once; each application owns at most one slot |
| `CompositorOwnership.PlacesApart` | apps/display/hwcomposer/hwcomposer.c:129-396 | a held descriptor is open and is held in one place only |
| `CompositorOwnership.AbandonedOnlyBy` | apps/display/hwcomposer/hwcomposer.c:241-277 | only an UNSET or a rejected PLAY abandons a descriptor |
| `CompositorMessages.SetFailsIff` | apps/display/hwcomposer/hwcomposer.c:153-212 | SET fails exactly when the application is new and every slot of its pipe is taken (0 and 1 for video, 2 to 4 for graphics, 5 for the framebuffer), and then changes nothing |
| `CompositorMessages.SetLands` | apps/display/hwcomposer/hwcomposer.c:153-202 | otherwise a new application gets the first free slot of its pipe, with the id it gave |
| `CompositorMessages.SetAgain` | apps/display/hwcomposer/hwcomposer.c:204-209 | an application with a slot keeps it and its plane id, whatever it asks for |
| `CompositorMessages.PipesKept` | apps/display/hwcomposer/hwcomposer.c:129-396 | in every run, under every answer of the driver, each owned slot was given by a SET for the pipe it serves to an application that was new, and has been kept since |
| `CompositorMessages.PlayFails` | apps/display/hwcomposer/hwcomposer.c:239-243 | PLAY fails exactly for an application without a slot; no slot changes and what it brought stays open |
| `CompositorMessages.PlayReplaces` | apps/display/hwcomposer/hwcomposer.c:229-260 | an accepted PLAY replaces the back buffer by its planes, in order, and its destination, closes exactly what the buffer held, and changes nothing else |
| `CompositorMessages.UnsetClears` | apps/display/hwcomposer/hwcomposer.c:265-281 | UNSET clears the slot of the application and closes nothing; without one it fails and changes nothing |
| `CompositorCommit.CommitSlots` | apps/display/hwcomposer/hwcomposer.c:324-396 | every field of every layer's slot after a commit, under every answer of the driver |
| `CompositorCommit.CommitFramebuffer` | apps/display/hwcomposer/hwcomposer.c:324-396 | the framebuffer's slot is left alone |
| `CompositorCommit.CommitCloses` | apps/display/hwcomposer/hwcomposer.c:344-348 | a commit closes exactly the front planes of the layers that have new data, queued or not |
| `CompositorCommit.CommitShows` | apps/display/hwcomposer/hwcomposer.c:337-342 | it puts on display exactly the back planes of the layers whose data the driver is given |
| `CompositorCommit.StatusGoesAstray` | apps/display/hwcomposer/hwcomposer.c:366-371 | a bad queue result of a graphics layer is stored in the slot two before it, and its own status stays good |
| `CompositorCommit.BadStatusIdles` | apps/display/hwcomposer/hwcomposer.c:324-342 | a slot with a bad status is neither configured nor queued |
| `CompositorDisplay.CommitShown` | apps/display/hwcomposer/hwcomposer.c:337-396 | where the planes last queued are after a commit: found by the parity of the swaps since |
| `CompositorDisplay.PlayHitsDisplayedIff` | apps/display/hwcomposer/hwcomposer.c:247-259 | a PLAY closes the planes on display exactly when they were swapped an even number of times since they were queued |
| `CompositorDisplay.NextPlayHarmlessIff` | apps/display/hwcomposer/hwcomposer.c:337-396 | with planes on display, the PLAY after the next commit spares the display exactly when that commit finds a back buffer to queue |
| `CompositorDisplay.PlayWantsQueueIff` | apps/display/hwcomposer/hwcomposer.c:229-260 | an accepted PLAY leaves the next commit something to queue exactly when it has a plane |
| `CompositorDisplay.DisplayedStaysAlive` | apps/display/hwcomposer/hwcomposer.c:247-396 | in every run in which each commit does so, nothing is unset and the driver succeeds, what was last queued is open at every point |
| `CompositorDisplay.FedDisplayStaysAlive` | apps/display/hwcomposer/hwcomposer.c:214-396 | in every run in which the driver succeeds, nothing is unset, and for each layer on display the last PLAY since the commit before has a plane, what was last queued is open at every point |
| `CompositorSuperseded.OnlySupersededClosed` | apps/display/hwcomposer/hwcomposer.c:214-396 | in the same runs each plane a PLAY finds in its slot, and so closes, was brought by an earlier PLAY of the same application with no commit in between: it was superseded before it was ever queued |
| `CompositorSuperseded.CommitSlot` | apps/display/hwcomposer/hwcomposer.c:324-396 | what a successful commit leaves in both buffers of a slot: a queued layer displays its back buffer and keeps behind it the spent front one, any other registered layer's buffers change places |
| `CompositorDestination.ClosedDestinationQueuedIff` | apps/display/hwcomposer/hwcomposer.c:214-396 | in every run in which the driver succeeds, a destination that a PLAY finds in its slot, and so closes, came with an earlier PLAY of the same application, the last to bring a descriptor of that number; a commit between the two queued it exactly when the earlier PLAY had a plane and there was a commit between them |
| `CompositorExamples.DisplayClosed` | apps/display/hwcomposer/hwcomposer.c:183-396 | a run from the start in which a PLAY closes the plane on display: SET, PLAY with a plane, commit, PLAY with a plane, PLAY with none, commit, PLAY |
| `CompositorExamples.DestinationClosed` | apps/display/hwcomposer/hwcomposer.c:183-396 | a run from the start in which a PLAY closes a destination descriptor that had been queued |
| `EncoderHandoff.RunInv` | apps/isp/vid-enc.c:105-156 | the lock, frame, sleep and log invariants hold at every point of every interleaving with spurious wakeups |
| `EncoderHandoff.NoLostWakeup` | apps/isp/vid-enc.c:111-154 | with the lock free a sleeping encoder means no frame and no stop request, a sleeping producer means its frame is pending; both never sleep; before a stop request a call in progress can always step |
| `EncoderHandoff.ExactlyOnce` | apps/isp/vid-enc.c:72-133 | the encoded frames are the completed calls in order plus at most the one in progress; the frame counter is their number; no assert fires |
| `EncoderHandoff.NothingAfterStop` | apps/isp/vid-enc.c:115-119 | once the encoder has seen the stop request the log never grows |
| `EncoderHandoff.StrandedForever` | apps/isp/vid-enc.c:115-119 | a call whose frame is still pending when the encoder leaves never returns |
| `EncoderHandoff.StrandedReached` | apps/isp/vid-enc.c:105-156 | a run of the three threads from the start that gets there |
| `EncoderHandoff.CallsEnd` | apps/isp/vid-enc.c:247-262 | every call returns or is stranded within 248 steps of the three threads, five more for every spurious wakeup, whether or not a stop is requested |
| `EncoderHandoff.UnstoppedCallsEnd` | apps/isp/vid-enc.c:247-262 | a call that no stop request meets is over within 68 steps, five more for every spurious wakeup |
| `EncoderHandoff.CallsProgress` | apps/isp/vid-enc.c:105-156 | until a call returns or is stranded some thread can always take a step, stop requested or not |
| `EncoderHandoff.NeverReturnsIff` | apps/isp/vid-enc.c:105-262 | after that many steps a call has not returned exactly when the encoder left with its frame pending, and then it never will |
| `CaptureStream.StreamObject.SetBuffers` | apps/isp/stream.c:217-247 | at any time: with a table, copies the granted entries and gives every index to the driver; without one, gives it none; afterwards each index is in one place exactly when the thread had no buffer in hand |
| `CaptureStream.StreamObject.Pass` | apps/isp/stream.c:73-119 | one pass of the loop, with its two tests of the start flag and the once-a-second reset of the frame count, moves the buffer exactly as its events say and keeps the partition |
| `CaptureStream.TurnEnd` | apps/isp/stream.c:73-119 | the events of a pass, one after the other, are possible exactly when the driver has the buffer it returns, and end where the pass does |
| `CaptureStream.StreamObject.StreamThread` | apps/isp/stream.c:59-122 | the whole loop, over any sequence of passes |
| `CaptureStream.OwnershipHolds` | apps/isp/stream.c:73-119 | at every point every index is in exactly one place: with the driver, never given to it, in hand, or stranded |
| `CaptureStream.OwnershipCounts` | apps/isp/stream.c:73-119 | the four groups add up to the buffer count, with at most one index in hand |
| `CaptureStream.StrandedOnlyBy` | apps/isp/stream.c:100-108 | an index is stranded exactly by a failed requeue or a callback that asks to stop |
| `CaptureStream.ExitedOnlyBy` | apps/isp/stream.c:73-103 | the thread leaves exactly when it finds the start flag cleared, poll or a dequeue fails, or the callback asks to stop |
| `CaptureStream.AtMostOneMore` | apps/isp/stream.c:73-90 | once the start flag is cleared no buffer is dequeued any more, except one by a thread past its second test |
| `CaptureStream.FramesCounted` | apps/isp/stream.c:110-118 | the frame count is the number of frames handled since the last one of a new second |
| `CaptureStream.EncoderReadsHeld` | apps/isp/main.c:101-107 | in every interleaving of stream, callback and encoder the buffer being encoded is the one the callback holds, never one with the driver |
| `ScalerSession.MScaler.Lock` | libs/libmscaler/mscaler.c:311-339 | the state changes exactly when the ioctl grants the lock; 0 is returned either way |
| `ScalerSession.MScaler.Unlock` | libs/libmscaler/mscaler.c:341-368 | a locked handle becomes idle, any other call is refused |
| `ScalerSession.MScaler.SetCoeff` | libs/libmscaler/mscaler.c:286-309 | the coefficient ioctl is issued exactly by a locked handle |
| `ScalerSession.MScaler.SetImageFormat` | libs/libmscaler/mscaler.c:837-871 | source then destination: an invalid format stops the call, an applied one sets its flag |
| `ScalerSession.MScaler.SetImageData` | libs/libmscaler/mscaler.c:904-948 | data is refused without its format, queued data sets its flag |
| `ScalerSession.MScaler.StartStreaming` | libs/libmscaler/mscaler.c:546-572 | both queues on and the flag set, or an error with source switched off again |
| `ScalerSession.MScaler.StopStreaming` | libs/libmscaler/mscaler.c:574-637 | the four ioctls in order, with the queues and flag as they stand at each failure |
| `ScalerSession.MScaler.Run` | libs/libmscaler/mscaler.c:639-686 | every refusal in the source's order, else streaming and STARTED |
| `ScalerSession.MScaler.WaitDone` | libs/libmscaler/mscaler.c:688-742 | LOCKED and 0 after both buffers are dequeued; every other outcome leaves the state |
| `ScalerSession.MScaler.RunSync` | libs/libmscaler/mscaler.c:971-981 | a run and, if it starts, a wait |
| `ScalerSession.FlagsKept` | libs/libmscaler/mscaler.c:639-686 | whatever the driver answers, a started handle has both formats, both data and the streaming flag; the other flags are never cleared |
| `ScalerSession.StartedLeftOnlyBy` | libs/libmscaler/mscaler.c:688-765 | STARTED is left exactly by a completed wait, a cancel or a close |
| `ScalerSession.IdleLeftOnlyBy` | libs/libmscaler/mscaler.c:311-368 | IDLE is left exactly by a granted lock and entered exactly by an unlock of a locked handle |
| `ScalerSession.LockReportsSuccess` | libs/libmscaler/mscaler.c:311-339 | a lock call returns 0 for every idle handle, granted or not; only the state tells |
| `ScalerSession.RunCoherentIff` | libs/libmscaler/mscaler.c:546-572 | a run leaves the streaming flag truthful except exactly when source was switched on, destination failed and the undo failed |
| `ScalerSession.StopCoherentIff` | libs/libmscaler/mscaler.c:574-637 | a stop leaves it truthful exactly when its first ioctl fails or all four succeed |
| `ScalerSession.HalfStoppedRuns` | libs/libmscaler/mscaler.c:574-686 | after a stop that failed midway the next run reports success with the source queue off |
| `ScalerSession.HalfStopReached` | libs/libmscaler/mscaler.c:574-686 | a run from the first open to such a handle, whose next run reports success |
| `ScalerSession.RunKeeps` | libs/libmscaler/mscaler.c:286-1003 | the system invariants hold at every point of every run of any number of handles |
| `ScalerSession.AtMostOneHolds` | libs/libmscaler/mscaler.c:311-368 | at most one open handle is not idle, and it holds the driver's lock |
| `ScalerSession.CoefficientsOnlyByHolder` | libs/libmscaler/mscaler.c:286-309 | in every run a coefficient call issues its ioctl exactly when its handle holds the driver's lock and is not running |
| `ScalerSession.UnlockOnlyByHolder` | libs/libmscaler/mscaler.c:362-365 | a locked handle, the only kind that issues the unlock ioctl, is the holder, and its unlock leaves the driver's lock free |
| `ScalerSession.StreamingFlagTruthful` | libs/libmscaler/mscaler.c:546-637 | in every run whose stream-off and buffer-release ioctls succeed the streaming flag is set exactly when both queues are on |
| `ScalerSession.SecondLockLies` | libs/libmscaler/mscaler.c:311-339 | while another handle holds the scaler a lock call returns 0 and leaves the caller idle |
| `ScalerHistory.FormatIff` | libs/libmscaler/mscaler.c:837-871 | over every sequence of calls on a handle, each format flag is set exactly when some call applied a valid format to that side |
| `ScalerHistory.DataIff` | libs/libmscaler/mscaler.c:904-948 | each data flag is set exactly when some call queued data for that side after its format |
| `ScalerHistory.FormatAnswer` | libs/libmscaler/mscaler.c:837-871 | SetImageFormat answers -22 exactly for an invalid format |
| `ScalerHistory.DataAnswer` | libs/libmscaler/mscaler.c:904-948 | SetImageData answers -22 exactly when a side it has data for never had a format |
| `ScalerHistory.RunAnswer` | libs/libmscaler/mscaler.c:639-686 | what a run answers, by the state and by the formats and data the handle's calls have given it |
| `ScalerHistory.RunQueues` | libs/libmscaler/mscaler.c:546-572 | which queues are on after a run, by the answers of the three ioctls |
| `ScalerHistory.WaitAnswer` | libs/libmscaler/mscaler.c:688-742 | a wait completes exactly when the poll reports a buffer and both come back; every other answer leaves the handle as it was |
| `ScalerHistory.RunSyncIs` | libs/libmscaler/mscaler.c:971-981 | RunSync is a run followed, unless it fails, by a wait |
| `ScalerHistory.StopAnswer` | libs/libmscaler/mscaler.c:574-637 | what a stop answers, and which queues and flag it clears, by the four answers in their order |
| `ScalerHistory.StateAnswers` | libs/libmscaler/mscaler.c:286-368 | what coefficient, lock, unlock and cancel calls answer in each state, and the state they leave |
| `ScalerHistory.HandleReplays` | libs/libmscaler/mscaler.c:286-1003 | in every run of any number of handles each open handle is what its own calls since it was opened made it |
| `ImageLayout.ImageInfo.GetImageInfo` | apps/isp/image-info.c:167-196 | finds the entry of the format and fills offset, stride, bytes per line and lines of every component, in 32-bit arithmetic |
| `ImageLayout.ImageInfo.Lookup` | apps/isp/image-info.c:153-163 | the first entry with the format, or none when no entry has it |
| `ImageLayout.ImageInfo.FillPlanes` | apps/isp/image-info.c:182-195 | the accumulating component loop fills exactly the components of the entry |
| `ImageLayout.StrideLeast` | apps/isp/image-info.c:189-190 | a stride is the least multiple of the alignment that holds the line, as long as the padded length fits 32 bits |
| `ImageLayout.StrideExample` | apps/isp/image-info.c:189-190 | a line of 360 bytes takes 368 at the application's alignment of 16 |
| `ImageLayout.BplLeast` | apps/isp/image-info.c:186-188 | the bytes of a line are the fewest that hold its bits, times the vertical divisor |
| `ImageLayout.PlaneIs` | apps/isp/image-info.c:182-195 | every plane reported, for any entry, size and alignment, has such a stride, and the lines of the image, halved rounding down for half-height components |
| `ImageLayout.ListedIff` | apps/isp/image-info.c:24-149 | the table has exactly the scaler's formats except contiguous YUV420 |
| `ImageLayout.EntryMatches` | apps/isp/image-info.c:24-149 | each entry describes the components of the scaler's hardware format for that pixel format |
| `ImageLayout.AcceptedIff` | libs/libmscaler/mscaler.c:767-804 | the sizes of the layout theorems are exactly the positive ones isValidImageFormat accepts |
| `ImageLayout.ValidFormatIff` | libs/libmscaler/mscaler.c:767-804 | a format is valid exactly when its size is whole 16 by 2 blocks within 4208 by 4120 and a source crop starts and ends on blocks |
| `ImageLayout.ScalerBits` | libs/libmscaler/mscaler.c:147-281 | bits per pixel and planes of every format of the scaler |
| `ImageLayout.LayoutsAgree` | libs/libmscaler/mscaler.c:1070-1175 | for every entry and every accepted size both computations give the same planes, components, bytes per line and lines, and at 8-byte alignment the same strides |
| `ImageLayout.ScalerStrides` | libs/libmscaler/mscaler.c:1070-1175 | the scaler's strides are the least multiples of 4 and 8 that hold the line |
| `ImageLayout.TotalBits` | apps/isp/image-info.c:167-196 | the unpadded bytes of an image are width times height times its bits per pixel over eight; both tables give the same bits |
| `ImageLayout.RangesDisjointIff` | apps/isp/image-info.c:182-195 | at every size and alignment the components of a contiguous format occupy ascending ranges that do not meet exactly when the offset of the last one fits 32 bits |
| `ImageLayout.RangesDisjoint` | apps/isp/image-info.c:182-195 | for every contiguous entry of the table at every accepted size and every alignment up to a page that condition holds: consecutive components are adjacent and none meet |
| `ImageLayout.OverlapExample` | apps/isp/image-info.c:182-195 | an image of 16 by 2 with 2^31-byte lines whose first two components both start at 0 |
| `ImageLayout.NV12Overlaps` | apps/isp/image-info.c:182-195 | the table's NV12 entry, at 16 by 2 with 2^31-byte lines, is one |
| `ImageLayout.Consecutive` | apps/isp/image-info.c:182-195 | at every size and alignment the offset of a component is the sum of the spans before it modulo 2^32, and so that sum exactly when it fits 32 bits |
| `StridedTransfer.SafeRead` | apps/mscaler/test.c:293-324 | over any short or interrupted reads the range receives the next bytes of the file, all of them unless the file ends |
| `StridedTransfer.SafeWrite` | apps/mscaler/test.c:326-357 | over any short or interrupted writes the file receives the range in order, all of it unless a write moves nothing |
| `StridedTransfer.ReadImagePlane` | apps/mscaler/test.c:359-383 | succeeds exactly when the file still holds the packed plane; then the plane is the old one with the bytes scattered over its rows and the file has moved by the packed size |
| `StridedTransfer.WriteImagePlane` | apps/mscaler/test.c:384-411 | emits exactly the bytes of the rows, in order |
| `StridedTransfer.CopyPlane` | apps/mscaler/test.c:359-411 | reading and then writing a plane emits exactly the bytes consumed and touches no padding byte, over every pattern of short and interrupted calls |
| `StridedTransfer.GatherOfScatter` | apps/mscaler/test.c:359-411 | what was scattered over rows that do not meet is what a gather finds |
| `StridedTransfer.ScatterOfGather` | apps/mscaler/test.c:359-411 | scattering what was gathered changes nothing |
| `StridedTransfer.PaddingUntouched` | apps/mscaler/test.c:372-380 | a byte outside the rows keeps its value |
| `StridedTransfer.PlaneRowsFit` | apps/mscaler/test.c:372-380 | the rows of a plane are in order, disjoint, within the sum of stride times height, and as long together as the sum of bytes per line times height |
| `StridedTransfer.ByteGoes` | apps/mscaler/test.c:372-410 | where each byte of the file goes: byte x of line y of a component stands x bytes and y strides below the start of the component, behind the strides times heights of the components before it |
| `StridedTransfer.ImageFileSize` | apps/mscaler/test.c:359-411 | for every format of the application's table and accepted size the planes transfer width times height times the bits per pixel over eight bytes |
| `CropTransform.PreRotateSource` | libs/libhwc/overlay_utils.c:220-236 | updates frame and crop in place to the image under the transform |
| `CropTransform.TransformTable` | libs/libhwc/overlay_utils.c:212-236 | the eight transforms by their numbers, in 32-bit arithmetic |
| `CropTransform.ComposeIs` | libs/libhwc/overlay_utils.c:212-236 | over every frame and crop, in 32-bit arithmetic, any two transforms equal the single one of the table |
| `CropTransform.InverseUndoes` | libs/libhwc/overlay_utils.c:212-236 | every transform undoes itself except the two quarter turns, which undo each other |
| `CropTransform.OnlyInverse` | libs/libhwc/overlay_utils.c:212-236 | no other transform undoes it |
| `CropTransform.Faithful` | libs/libhwc/overlay_utils.h:28-51 | the eight transforms act differently |
| `CropTransform.CropIsImage` | libs/libhwc/overlay_utils.c:220-236 | a crop inside its frame stays inside the new frame, and a pixel is in the crop exactly when its image is in the new crop |
| `CropTransform.PixelTable` | libs/libhwc/overlay_utils.h:28-51 | where each of them carries a pixel |
| `CropTransform.CropIsOnto` | libs/libhwc/overlay_utils.c:220-236 | every pixel of the new crop is the image of a pixel of the old one |
| `Adam7.GridIs` | include/libpng16/png.h:2638-2654 | the start and shift macros give the first rows, first columns and steps of the specification's table |
| `Adam7.CountsAre` | include/libpng16/png.h:2661-2673 | a row or column of a pass exists exactly when its position lies within the image |
| `Adam7.LimitIsSharp` | include/libpng16/png.h:2661-2662 | the bound on the height is sharp: one row more and the count wraps to zero |
| `Adam7.TableBits` | include/libpng16/png.h:2681-2688 | the bits of the pass masks are the rows and columns of the table |
| `Adam7.MasksSelectOnePass` | include/libpng16/png.h:2681-2688 | for each pixel both masks select exactly one pass |
| `Adam7.OnePlace` | include/libpng16/png.h:2670-2688 | a place maps to a pixel exactly when it is the pixel's row and column in the pass both masks select |
| `Adam7.ExactPartition` | include/libpng16/png.h:2638-2688 | the passes hold each pixel of the image exactly once and nothing else |
| `Adam7.PassesFillImage` | include/libpng16/png.h:2661-2664 | the seven products of rows and columns add up to width times height |

## Left out

- Out-of-memory paths and the identity of returned strings: allocation always succeeds.
- `iniparser_dump`, `iniparser_getint`, `iniparser_getdouble` and `iniparser_getboolean`: conversions by the C library, or easy.
- The threads, timers, fences and sockets of the compositor: one message and one commit body are one step each; its waits are not paired with held locks.
- The framebuffer's own buffers: the commit loops do not touch `fb_cfg`.
- Encoding and muxing, and the encoder without its thread: foreign calls around one counter.
- The exits of the stream thread through `exit`, and the text of its frames-per-second report.
- Format and crop negotiation inside the driver, buffer sizes and the transport of the scaler's ioctls.
- A run of the scaler as evidence of freshly queued data: the data flags are never cleared.
- ImageLayout.LayoutsAgree: contiguous YUV420 is not in the application's table, and the scaler reports only its luma component.
- ImageLayout.RangesDisjoint: larger alignments; what holds at every one is `RangesDisjointIff`.
- IniLoad.SplitLine: the same last pieces as SplittingIsInvisible.
- IniFlat.FlatReloads: dictionaries with other keys or values; that none of them survives is `FlatSurvivesIff`, which has no such premise.
- IniLoad.SplittingIsInvisible: a last piece of blanks, where the loader looks at `line[-1]`; the empty one is `EmptyPieceJoins`.
- StridedTransfer.ReadImagePlane: where the source's assert stops the program the model returns false and says nothing about the half-filled plane; sizes are below those at which the scaler's 32-bit products wrap.
- The down-scaling factors, the other tables of `overlay_utils`, and PNG_PASS_ROW_OFFSET and PNG_PASS_COL_OFFSET: floating point, or easy.
- Device plumbing, the vendor libraries and headers, and the rest of libpng and zlib.
