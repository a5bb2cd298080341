# A verified model of dirtsand's state, stream and protocol core

dirtsand is a game server. This project models the parts of it whose behaviour is hardest to get right
and proves what they promise, for all inputs and all runs.

- **SDL states** (`SdlTypes`, `SdlElements`, `SdlCodec`, `SdlCodecLoops`, `SdlRoundTrip`, `SdlSurvival`,
  `SdlStateSurvival`, `SdlMarks`, `SdlExample`): the recursive sparse codec of states, variables and
  nested states. The main theorem is `BlobRoundTrip`: a blob that is written and parsed restores exactly
  the dirty variables, at any depth, and consumes exactly its bytes. Where the code does not promise
  that for every state, the exact condition is a lemma: which strings survive, which nested variables
  are written at all, and, in `BlobSurvivesIff`, which states come back with all their values, to any
  depth. Variables that their reader stamps with the clock are part of all of it (`ClockStamps`).
- **Combining states** (`SdlCombine`, `SdlReplay`, `StateTable`): `add` and `merge` on values. `merge`
  is a last-writer-wins join that converges. `LateJoinerCatchesUp` and `StateTable.Replay` follow the
  blobs of the players through the host's parse and its table to the snapshot for a late joiner, who
  sees what all the blobs make.
- **Sharing** (`SdlHeap`, `SdlChanges`, `SdlHostModel`, `SdlHosts`): states on the heap, where cells are
  shared and not copied, the daemon's in-place changes of global variables, and any number of game
  hosts. Local states never share a cell with a global state, over every run, and `Server.Run` refines a
  model on values in which a host's hook names, slot by slot, the cells that it shares with the global
  state; the `Shown` lemmas say what the players are sent. `ChangeSurvivesIff` says which changes of a
  global variable the saved blob keeps: resetting a non-empty variable-length array loses its length,
  and a text that is set must fit its field.
- **Migration** (`DescriptorDb`, `SdlUpdate`, `SdlUpdateLoops`, `SdlMigration`, `SdlLoading`): the
  descriptor database with its cached copy of the newest version, and `update`, which moves a state to
  that version. Two findings are stated as exact conditions: the cached copy is the newest descriptor if
  and only if the first and the last descriptor loaded of the highest version are the same, and what
  `start_game_host` writes to the vault after a migration is parsed with the migrated values if and only
  if all that the migration kept is the new default, because migrated variables are not dirty.
- **Streams and downloads** (`SafeString`, `BufferStream`, `Bits`, `BitVectors`, `Rotation`, `Ciphers`,
  `CipherVectors`, `CipherBlocks`, `EncryptedStream`, `Download`): the growable buffer, the two block
  ciphers, the cipher behind a byte stream with arbitrary call sizes, and the chunked download protocol.
  The layers meet in `DownloadDelivers`. The ciphers are inverses, and `CipherVectors` says which
  ciphers they are: their rounds in 32-bit vectors, and one known block for each.
- **Concurrent protocols** (`Sums`, `MsgChannel`, `Broadcast`, `SignIn`, `GameHost`, `GameHostRuns`):
  state machines whose steps are the atomic sections of worker threads, daemon and hosts, with
  invariants over every interleaving. `OnlineMeansGranted` and `StrayIffGivenUp` say exactly when a
  player is marked online with nobody signed in, and `OnlineCanOutliveSignIn` names a run in which that
  happens.
- **Parsing** (`SdlParser`, `SdlGrammar`, `SdlRendering`, `SdlParserLoop`): the descriptor parser as a
  state machine with push-back, a grammar with its meaning, the proof that the one computes the other,
  and `ParseOfRendering`: descriptors come back from their rendering.
- **Hashing** (`Sha0`, `Sha0Vectors`): the SHA-0 loops against the method of section 6.1 of RFC 3174,
  its functions and constants in 32-bit vectors, and one known digest.

Code that the server writes as loops over changing variables is written as methods with loops here, or
as classes whose methods change their fields, and each such method is proved against a function on
values. The theorems are about those functions.

Conventions. Bytes and words are bounded integers and every wrap-around is written out. An exception is
a `Failed` result, a `None`, a null stream or a `false`, as the comment at the member says. Names of
descriptors are compared exactly, as after the case folding of the database's maps. The clock is an
input. Floating-point numbers are their bit patterns.

The preconditions are those that the code has: the dirty nested variables of a state come first and the
children of a written nested variable are all dirty; nested variable-length arrays have fewer than 256
elements and all variable-length arrays that are written fewer than 10000 (for `BlobSurvivesIff`: no
more than their length field can hold); the state given to `add` and `merge` is not null; a game host's
players are in at most one live connection and a connection joins once; an in-place change of a global
variable finds an element to change.

Source paths are relative to the root of the dirtsand repository.

## Model

| member | source | states |
|---|---|---|
| SafeString.ReadWritten | streams.cpp:65-131 | Whatever string is written, the reader consumes exactly the bytes of the encoding and sees its first length mod 4096 units, complemented back only when the first coded unit has its top bit set |
| SafeString.SurvivesIffSafe | streams.cpp:65-131 | A string comes back unchanged if and only if it is shorter than 4096 units and empty or with the top bit of its first unit clear, in the 8-bit and the 16-bit form |
| SdlElements.FixedStringSurvives | SDL/StateInfo.cpp:291-299 | A string variable survives its 32-byte field if and only if it has at most 31 bytes and no NUL |
| SdlTypes.ObjectKeyIff | PlasMOUL/Key.h:88-94 | Two keys name the same lock and the same states if and only if they agree in all but load mask and location flags |
| SdlElements.UoidRoundTrip | PlasMOUL/Key.cpp:55-93 | Reading back a written object key gives the key and consumes exactly its bytes, with and without load mask and clone ids |
| SdlElements.ElemRoundTrip | SDL/StateInfo.cpp:182-371 | For every element type, reading what was written consumes exactly the bytes and gives the element, but for the alpha of an RGB colour, which stays that of the slot |
| SdlCodec.LengthRoundTrip | SDL/StateInfo.cpp:24-41 | A count is read back from the width its limit selects; with limit 0 only below 256 |
| SdlCodec.FlagsRoundTrip | SDL/StateInfo.cpp:381 | The low flag byte is read back bit by bit (also lines 432-433) |
| SdlCodecLoops.WriteElems | SDL/StateInfo.cpp:278-371 | The element loop writes the concatenation of the element encodings |
| SdlCodecLoops.WriteNested | SDL/StateInfo.cpp:434-453 | The two loops over the children count every child and write the dirty ones |
| SdlCodecLoops.WriteVar | SDL/StateInfo.cpp:420-464 | The bytes of one variable, flat or nested |
| SdlCodecLoops.WriteItems | SDL/StateInfo.cpp:912-935 | The loop over simple or nested variables writes the dirty ones, with their numbers when only some are dirty |
| SdlCodecLoops.WriteState | SDL/StateInfo.cpp:901-936 | State::write produces the state encoding that the round-trip theorems are about |
| SdlCodecLoops.ReadElemsLoop | SDL/StateInfo.cpp:182-276 | The element loop reads each slot in turn or fails at the first that is short |
| SdlCodecLoops.ReadChildrenLoop | SDL/StateInfo.cpp:389-397 | The loop over nested states reads each into the slot that is numbered or next, and refuses numbers out of range |
| SdlCodecLoops.ReadVarLoop | SDL/StateInfo.cpp:373-418 | One variable, with the clock-stamped case, the length limit of 10000 and the default flag |
| SdlCodecLoops.ReadItemsLoop | SDL/StateInfo.cpp:882-898 | The loop over numbered or consecutive variables, with the range check |
| SdlCodecLoops.ReadStateLoop | SDL/StateInfo.cpp:873-899 | State::read computes the parsing function of the round-trip theorems, error cases included |
| SdlRoundTrip.FlatVarRoundTrip | SDL/StateInfo.cpp:373-464 | A dirty flat variable comes back with value, flags, hint and timestamp, consuming exactly its bytes; one that asks for a stamp in its dirty flags comes back stamped with the clock of its reader |
| SdlRoundTrip.NestedVarRoundTrip | SDL/StateInfo.cpp:373-464 | A dirty nested variable comes back with all its children, to any depth |
| SdlRoundTrip.CountedAreWrittenIffPrefix | SDL/StateInfo.cpp:922-935 | The loop over nested variables writes every variable that it counted if and only if the dirty ones come first |
| SdlRoundTrip.CountedChildrenAreWrittenIff | SDL/StateInfo.cpp:438-453 | As many children of a nested variable are written as are counted if and only if all of them are dirty |
| SdlRoundTrip.StateRoundTrip | SDL/StateInfo.cpp:873-936 | Reading a written state into a fresh one restores exactly the dirty variables, leaves the others at their defaults and consumes exactly the bytes |
| SdlSurvival.ElemSurvivesIff | SDL/StateInfo.cpp:182-371 | An element comes back if and only if it can be written (a string of at most 31 bytes without NUL, a key whose name is safe, an object whose size fits) and its alpha, when it is not written, is the slot's |
| SdlSurvival.ValueRestoredIffDetermined | SDL/StateInfo.cpp:373-464 | What the reader makes of the written bytes of a flat variable has the variable's value if and only if that is determined: flagged as default it is the default, otherwise every element survives and a variable-length array has fewer than 10000 |
| SdlSurvival.ClockStamps | SDL/StateInfo.cpp:397-406 | For every flat variable and all bytes: with the dirty-flag and the want-timestamp bit in the flag byte, what is read has the time of the clock, is stamped and asks no more; with any other byte it has the flags of the byte |
| SdlSurvival.StampKept | SDL/StateInfo.cpp:397-406 | A variable that was stamped by the clock is written with that time, and read back with it at any later time (also lines 429-434) |
| SdlSurvival.FlagsAre | SDL/StateInfo.h:51-59 | The weight of each flag in the flag byte |
| SdlExample.ExampleBlob | SDL/StateInfo.cpp:901-936 | The blob of a state of two variables, one of them dirty and stamped, byte by byte (also lines 420-464 and 1044-1055) |
| SdlExample.LongestArray | SDL/StateInfo.cpp:408-412 | A variable-length array of 9999 elements is read and one of 10000 is refused |
| SdlExample.HeaderRefused | SDL/StateInfo.cpp:1057-1078 | A blob without the header bit is malformed |
| SdlExample.UnknownIsNull | SDL/StateInfo.cpp:1057-1078 | A blob of a descriptor that is not loaded, or without bytes, is the null state |
| SdlExample.VersionRefused | SDL/StateInfo.cpp:873-880 | A state of another version of the format than 6 is malformed, whatever follows |
| SdlRoundTrip.BlobRestored | SDL/StateInfo.cpp:1044-1078 | The blob of a well-formed state parses to the restored state of the descriptor it names, with its object key |
| SdlRoundTrip.BlobRoundTrip | SDL/StateInfo.h:202-213 | FromBlob(toBlob(s)) consumes every byte, restores every dirty variable's value, flags, hint and flat timestamp at any depth, clock-stamped where the variable asks for it, and leaves every other variable at its default |
| SdlStateSurvival.NestedVarReadsAs | SDL/StateInfo.cpp:373-464 | A written nested variable has its values after reading if and only if those of every child are determined; right or wrong, a reader that does not fail ends behind its bytes |
| SdlStateSurvival.StateReadsAs | SDL/StateInfo.cpp:873-936 | A written state is read back with its values, to any depth, if and only if what is dirty is determined and what is clean has the default's values; a reader that does not fail ends behind its bytes, whatever strings, hints, flags and timestamps are in it |
| SdlStateSurvival.BlobSurvivesIff | SDL/StateInfo.cpp:1044-1078 | The same condition for FromBlob(toBlob(s)): exactly when the parsed state has the values of s |
| SdlMarks.CellMarksUnseen | SDL/StateInfo.cpp:430-464 | Setting e_SameAsDefault in a cell when it is written never changes the bytes of that variable again |
| SdlMarks.MarksUnseen | SDL/StateInfo.cpp:901-936 | A state is written alike however often its shared cells have been written before |
| SdlCombine.AppliedIsLastDirty | SDL/StateInfo.cpp:954-965 | After any sequence of updates a variable is that of the last update in which it was dirty, else the original |
| SdlCombine.OverlayWellFormed | SDL/StateInfo.cpp:954-965 | add keeps a state writable: the dirty nested variables of the union still come first |
| SdlCombine.StoredIsHistory | GameServ/GameHost.cpp:466-488 | What the host stores for an object restores to the overlay of all its updates |
| SdlCombine.SnapshotEqualsHistory | GameServ/GameHost.cpp:344-355 | The single blob sent to a late joiner parses to the same variables as the blobs of all updates applied in order to a fresh state |
| SdlReplay.RestoredWellFormed | SDL/StateInfo.cpp:873-936 | What is parsed of a well-formed state is well-formed, so that the host can store it, add to it and send it |
| SdlReplay.RestoredTwice | SDL/StateInfo.cpp:873-936 | Parsing what has been parsed changes nothing but the default flag of a colour whose alpha is not saved |
| SdlReplay.LateJoinerCatchesUp | GameServ/GameHost.cpp:433-488 | The blob of what the host made of the players' blobs, parsed at the host's times, parses at any later time, but for flags, to what all the players' blobs make, parsed at those times and applied in order to a fresh state; variables stamped by the host's clock are included (also lines 344-355) |
| SdlCombine.MergeCommutesIff | SDL/StateInfo.cpp:967-986 | Two states merge alike in both orders if and only if equal timestamps mean equal variables |
| SdlCombine.OutcomeIsLatest | SDL/StateInfo.cpp:967-986 | However a collection of states is merged, every variable of the outcome comes from a source with no later one |
| SdlCombine.MergeConverges | SDL/StateInfo.cpp:967-986 | When equal timestamps mean equal variables the outcome does not depend on order, grouping or repetition |
| SdlCombine.MergeVars | Types/UnifiedTime.h:42-51 | No timestamp of either side is later than that of the result |
| SdlTypes.LaterIff | Types/UnifiedTime.h:42-51 | The comparison of seconds and then microseconds is the order of the two as one number |
| DescriptorDb.DescriptorDb.Load | SDL/DescriptorDb.cpp:36-53 | After any files, each version is the last descriptor loaded under it and -1 the first of the highest version |
| DescriptorDb.DescriptorDb.FindLatest | SDL/DescriptorDb.cpp:87-103 | The scan ends on the descriptor with the highest key, or null when there is none of that name |
| DescriptorDb.LatestIsLastNewest | SDL/DescriptorDb.cpp:87-103 | The descriptor found by scanning is the last one loaded of the highest version |
| DescriptorDb.CachedIsLatestIff | SDL/DescriptorDb.cpp:48-52 | The copy cached under -1 equals the scanned one if and only if the first and the last descriptor loaded of the highest version are the same |
| DescriptorDb.LoadedTwice | SDL/DescriptorDb.cpp:48-52 | Witness: one name and version loaded twice with different variables leaves the cached copy behind |
| DescriptorDb.CachedIsLatest | SDL/DescriptorDb.cpp:38-52 | With no version loaded twice the cached copy is always the newest |
| SdlUpdate.UpdatedIffCompatible | SDL/StateInfo.cpp:466-469 | update throws MalformedData if and only if a variable present in both descriptors changes its type, at any depth that is kept (also lines 988-1009) |
| SdlUpdate.UpdateLands | SDL/StateInfo.cpp:988-1009 | A successful update is a state of the highest loaded version, well-shaped to any depth |
| SdlUpdate.UpdateTwice | SDL/StateInfo.cpp:993-995 | A second update changes nothing |
| SdlUpdate.UpdateKeeps | SDL/StateInfo.cpp:471-546 | A variable in both, by name, keeps its first min(old, new) elements (all when variable-length), nested states being updated in turn; the rest is that of a fresh variable (also lines 998-1005) |
| SdlUpdate.UpdateDefaults | SDL/StateInfo.cpp:1000-1003 | A variable whose name is new is at its default |
| SdlUpdate.UpdateThenBlob | GameServ/GameHost.cpp:920-924 | The blob of a migrated state parses to a fresh state, since no migrated variable is dirty |
| SdlMigration.MigratedFreshIff | SDL/StateInfo.cpp:466-546 | A migrated state has the values of a fresh one if and only if, before the update, all that it keeps is the new default, kept variable-length arrays are empty, and kept nested states likewise, at any depth (also lines 988-1009) |
| SdlMigration.MigrationSavedIffDefault | GameServ/GameHost.cpp:920-924 | What a migration writes to the vault parses to the values of the migrated state if and only if the state before it is such a one |
| SdlMigration.MigrationLosesFive | GameServ/GameHost.cpp:920-924 | Witness: an int holding 5 is 5 after the migration and 0 in what is read back from the vault |
| SdlLoading.LoadedIsLinked | SDL/DescriptorDb.cpp:36-61 | Whatever descriptors without circular references are loaded, the catalog is one that states and updates can be built on |
| SdlLoading.LoadedCatalogExists | SDL/DescriptorDb.cpp:36-53 | Every such list of descriptors can be loaded |
| SdlLoading.UpdateLandsOnHighest | SDL/StateInfo.cpp:988-1009 | A successful update lands on the highest version that was loaded of its descriptor's name |
| SdlUpdateLoops.CopyVar | SDL/StateInfo.cpp:466-546 | Variable::copy with its element and child loops computes the migrated variable, or throws |
| SdlUpdateLoops.UpdateState | SDL/StateInfo.cpp:988-1009 | State::update with its lookup by name computes the migrated state, or throws |
| SdlHeap.StateRef.constructor | SDL/StateInfo.cpp:852-869 | A new state has cells of its own, one for each variable |
| SdlHeap.StateRef.Add | SDL/StateInfo.cpp:954-965 | add shares the other state's dirty cells slot by slot, or refuses another descriptor, and its values are the overlay |
| SdlHeap.StateRef.Merge | SDL/StateInfo.cpp:967-986 | merge shares the cells with a strictly later timestamp, and its values are the last-writer-wins join |
| SdlHosts.Server.constructor | AuthServ/AuthVault.cpp:240-243 | Every global state starts with cells of its own, shared with no other |
| SdlHosts.Server.StartHost | GameServ/GameHost.cpp:898-929 | A started host has a local state whose cells no global state has and a hook merged with its age's global state, and leaves every other host and hook as it was |
| SdlHosts.Server.ReadAgeSdl | GameServ/GameHost.cpp:459-464 | An update of the age's object is added to local state and hook, as the models of both say, and the new local state written back |
| SdlHosts.Server.AddUpdate | GameServ/GameHost.cpp:459-462 | An accepted update overlays the cells of the hook, and those of the local state; one of another descriptor changes neither |
| SdlHosts.Server.HookShows | GameServ/GameHost.cpp:328-334 | The cells of the hook, which players are sent, are those that the model of it shows |
| SdlHostModel.ShownAfterUpdate | GameServ/GameHost.cpp:459-464 | What is shown after an accepted update is what was shown before, overlaid with it |
| SdlHostModel.ShownAfterVault | GameServ/GameHost.cpp:746-784 | What is shown after a vault update is what was shown before, merged with the update and then with the global state |
| SdlHostModel.ShownAtStart | GameServ/GameHost.cpp:898-929 | A new host shows its age's saved state merged with the global state |
| SdlHostModel.ShownAfterChange | AuthServ/AuthDaemon.cpp:943-1000 | A global change is seen at once in every place of every hook that shares the changed variable, and in no other |
| SdlHosts.Server.UpdateFromVault | GameServ/GameHost.cpp:746-784 | A vault update is merged into hook and local state, the global state into the hook only: both are what their models say, values and sharing |
| SdlHosts.Server.UpdateFromGlobal | GameServ/GameHost.cpp:786-790 | Afterwards no global variable is later than the hook's, a strictly later one is itself the one shown, and the local state is untouched |
| SdlHosts.Server.ChangeGlobal | AuthServ/AuthDaemon.cpp:943-1005 | The first simple variable of that name is changed in place with stamp, flags and value, nothing else in any state changes, and no local state sees it |
| SdlChanges.ChangedValue | AuthServ/AuthDaemon.cpp:951-984 | After a set, element 0 is the text's value in the variable's type, cut to its width with a sign, and the rest is kept; after a reset all is the default; in both the variable is dirty, stamped and flagged accordingly |
| SdlChanges.ChangeSurvivesIff | AuthServ/AuthDaemon.cpp:951-984 | A changed variable is dirty and stamped; reading its written bytes gives its value if and only if it was not emptied back to the default of a non-empty variable-length array, and a set value is the default or can be written with all its neighbours |
| SdlChanges.DefaultArrayIsLost | AuthServ/AuthDaemon.cpp:951-957 | Witness: resetting a variable-length array of one element loses its length |
| SdlChanges.LongTextIsLost | AuthServ/AuthDaemon.cpp:975-977 | Witness: a text of forty letters does not come back |
| SdlHosts.Server.Publish | AuthServ/AuthDaemon.cpp:943-1000 | A change later than what a host shows is, once the host has handled the message, the very cell that the host shows |
| SdlHosts.Server.Run | GameServ/GameHost.cpp:459-464 | Over every run of starts, updates, vault merges, disconnects and global changes, no cell of a local state is a cell of a global state; local states and vault writes are a function of the local events, and global states and hooks, with the cells they share, those of the model run (also lines 746-790 and 898-929) |
| SdlHostModel.GlobalEventsNeverReachTheVault | AuthServ/AuthDaemon.cpp:925-1000 | Local states and everything written to the vault are the same as in the run without the global events |
| StateTable.StateTable.Receive | GameServ/GameHost.cpp:433-488 | A blob that cannot be parsed or names no descriptor is dropped; any other is an update of the stored state of its object and descriptor name |
| StateTable.StateTable.Read | GameServ/GameHost.cpp:465-488 | The stored state of an object and descriptor name is what all its accepted updates make together; another version is refused |
| StateTable.StateTable.Snapshot | GameServ/GameHost.cpp:344-355 | What is sent for an object is the stored state of its whole history |
| StateTable.KeyOfIff | GameServ/GameHost.cpp:466-473 | Two updates are of one stored state if and only if they are for the same object, whatever load mask and location flags, and descriptors of one name |
| StateTable.StateTable.Replay | GameServ/GameHost.cpp:433-488 | From the first blob for an object to the snapshot for a late joiner: it parses the same variables as one that has applied all the players' blobs (also lines 344-355) |
| StateTable.StateTable.Erase | GameServ/GameHost.cpp:193-201 | When an avatar leaves its states are forgotten, whatever load mask and flags its key has, and no others |
| BufferStream.SeekClampsIff | streams.cpp:193-206 | A seek lands on the position nearest to its target if and only if the target is negative, the stream empty, or bit 31 of the target clear |
| BufferStream.SeekForwardGoesBack | streams.cpp:193-206 | Witness: from the end of a one-byte stream the largest step forward ends at the start |
| BufferStream.WriteTwice | streams.cpp:172-191 | Two writes are one write of the concatenation |
| BufferStream.WriteSeekRead | streams.cpp:163-206 | What was written is read back after seeking to where it was written |
| BufferStream.BufferStream.ReadBytes | streams.cpp:163-170 | At most the rest of the stream is read and the cursor moves past it |
| BufferStream.BufferStream.Grow | streams.cpp:174-186 | Doubling makes room, keeps the contents, and the bytes copied so far stay within the new allocation |
| BufferStream.BufferStream.WriteBytes | streams.cpp:172-191 | The bytes behind the cursor are overwritten, then the stream extended; position <= size <= allocation and copied <= allocation are kept |
| BufferStream.BufferStream.SeekTo | streams.cpp:193-206 | Where each of the three kinds of seek puts the cursor |
| BufferStream.BufferStream.Set | streams.cpp:208-220 | The contents are replaced, by nothing for a null pointer |
| BufferStream.BufferStream.Steal | streams.cpp:222-228 | The caller's buffer becomes the contents |
| BufferStream.BufferStream.Run | streams.cpp:163-228 | Every run of operations does to the stream what it does to a byte sequence with a cursor |
| Ciphers.RoundKeyZeroIff | streams.cpp:386-403 | A multiple of the round constant is 0 modulo 2^32 only for 0 rounds, below 2^32 rounds |
| Ciphers.TeaInverse | streams.cpp:432-460 | TEA decipherment of any number of rounds undoes as many rounds of encipherment, for every key and block |
| Ciphers.TeaEncipher | streams.cpp:447-460 | The loop does the 32 rounds in place |
| Ciphers.TeaDecipher | streams.cpp:432-445 | The loop undoes the 32 rounds, last first, from the key constant |
| Ciphers.XxteaInverse | streams.cpp:384-430 | XXTEA decipherment undoes encipherment for blocks of two words, any key and any number of rounds |
| Ciphers.XxteaEncipher | streams.cpp:407-430 | The in-place loops do 52 / num + 6 rounds for every num >= 1 |
| Ciphers.XxteaDecipher | streams.cpp:384-405 | The loop until the key is 0 ends after exactly 52 / num + 6 rounds for every num >= 1 |
| CipherVectors.TeaMixIs | streams.cpp:432-460 | What a half round of TEA mixes in, in 32-bit vectors, for all words and keys |
| CipherVectors.TeaIs | streams.cpp:447-460 | The rounds of TEA, choice of key words included, are those of 32-bit vectors, for every key, block and number of rounds |
| CipherVectors.XxteaMixIs | streams.cpp:416-420 | What a step of XXTEA mixes in, choice of the key word included, in 32-bit vectors, for every key, round, position and word |
| CipherVectors.XxteaIs | streams.cpp:407-430 | The rounds of XXTEA on two words are those of 32-bit vectors, for every key, block and number of rounds |
| CipherVectors.KnownBlocks | streams.cpp:462-473 | One block and key, and its eight enciphered bytes for both ciphers |
| CipherBlocks.BlockInverse | streams.cpp:464-493 | For both ciphers, every key and every 8-byte block, decipherment undoes encipherment |
| CipherBlocks.DecBlockAt | streams.cpp:484-494 | A deciphered block depends on its own eight bytes alone |
| EncryptedStream.EncryptedStream.Create | streams.cpp:320-325 | A stream opened for writing starts with sixteen junk bytes in the base |
| EncryptedStream.EncryptedStream.CryptFlush | streams.cpp:462-474 | The buffer goes through the cipher to the base and is zeroed |
| EncryptedStream.EncryptedStream.WriteBytes | streams.cpp:509-531 | However writes are split, the base holds the enciphered whole blocks of the concatenation and the buffer the rest |
| EncryptedStream.EncryptedStream.Close | streams.cpp:333-354 | The closed stream is the magic, the length and the enciphered zero-padded blocks of all that was written |
| EncryptedStream.EncryptedStream.LoadBlock | streams.cpp:484-494 | The next eight bytes of the base, or as many as there are over what the buffer held, are deciphered into the buffer |
| EncryptedStream.EncryptedStream.ReadBytes | streams.cpp:476-507 | However reads are split, they return consecutive slices of one deciphered stream, past the end of the base too |
| EncryptedStream.ClearWithin | streams.cpp:484-494 | As far as the base has whole blocks, the deciphered stream is those blocks deciphered |
| EncryptedStream.Open | streams.cpp:304-318 | The magic selects the cipher, the header gives the length, and an unknown magic is refused |
| EncryptedStream.CheckEncryption | streams.cpp:363-377 | The cipher is told from the first twelve bytes, which keep what the stack held where the stream is shorter, and the cursor is put back, exactly so below 2^31 bytes |
| EncryptedStream.SealedOpens | streams.cpp:304-354 | A closed stream opens with the type, the length and the padded contents that went into it |
| EncryptedStream.MagicSpelled | streams.cpp:304-311 | The magic strings, letter by letter, and the ciphers that they stand for |
| EncryptedStream.WriteAll | streams.cpp:333-354 | Every split of the data over writes gives the same closed stream (also lines 509-531) |
| EncryptedStream.ReadAll | streams.cpp:304-318 | Every split of the reads over a closed stream gives back the data, then the padding (also lines 476-507) |
| Download.StartsCleanlyIff | AuthServ/AuthServer.cpp:710-720 | A start begins its own transaction if and only if the number was free or the file takes more than one chunk; a short file leaves an older download in place |
| Download.OlderDownloadGoesOn | AuthServ/AuthServer.cpp:710-757 | After a longer download has started under a number, a file that is sent in one piece under the same number is sent whole, and the next chunk is the older download's second |
| Download.ShortFileUnderUsedNumber | AuthServ/AuthServer.cpp:684-757 | Witness, as a run from no downloads: an older download of a plain file that takes two chunks when sealed is in progress, an empty file started under its number is sent as sixteen bytes, and the next chunk is the older one's |
| Download.AskedStep | AuthServ/AuthServer.cpp:732-757 | A request for the next chunk gets the next one and ends the transaction with the last, and nothing after that |
| Download.TransactionRuns | AuthServ/AuthServer.cpp:725-757 | Whatever else is asked in between, a transaction sends chunk after chunk, each announcing the bytes already sent |
| Download.DownloadDelivers | AuthServ/AuthServer.cpp:640-757 | A download is max(1, ceil(size / 32768)) chunks that join to the file itself when it was encrypted before, and otherwise decipher to exactly the file and its padding |
| Download.SealFile | AuthServ/AuthServer.cpp:684-700 | The loop over chunks of the file makes the sealed stream of the whole file |
| Download.Downloads.StartDownload | AuthServ/AuthServer.cpp:640-723 | The handler's reply and its map of open downloads are those of the protocol |
| Download.Downloads.NextDownload | AuthServ/AuthServer.cpp:725-757 | The handler's reply and its map of open downloads are those of the protocol, other downloads being left alone |
| Download.Downloads.Serve | AuthServ/AuthServer.cpp:640-757 | Any sequence of requests is answered as the protocol says |
| MsgChannel.PopSafe | NetIO/MsgChannel.cpp:66-77 | A consumer past the semaphore always finds a message |
| MsgChannel.StepKeepsInv | NetIO/MsgChannel.cpp:38-83 | Every atomic section keeps: queue length = semaphore + producers between push and post + consumers between wait and pop, and pushed = popped ++ queue |
| MsgChannel.RunKeepsInv | NetIO/MsgChannel.cpp:38-83 | The same in every interleaving of any number of producers and consumers |
| MsgChannel.NoneStranded | NetIO/MsgChannel.cpp:51-77 | With no thread in between, the semaphore is the queue length and a waiting consumer can go on when there is a message |
| MsgChannel.MsgChannel.PushMessage | NetIO/MsgChannel.cpp:51-59 | The section under the mutex is the push step |
| MsgChannel.MsgChannel.Fd | NetIO/MsgChannel.cpp:38-49 | The semaphore is created once, with value 0 |
| MsgChannel.MsgChannel.WriteSemaphore | NetIO/MsgChannel.cpp:61-63 | The post step |
| MsgChannel.MsgChannel.ReadSemaphore | NetIO/MsgChannel.cpp:68-71 | The wait step, which only happens above 0 |
| MsgChannel.MsgChannel.PopMessage | NetIO/MsgChannel.cpp:73-76 | The section under the mutex takes the front message and never finds the queue empty |
| Broadcast.StepKeepsInv | AuthServ/AuthDaemon.cpp:204-266 | Every step keeps each count equal to the number of holders and frees a buffer exactly when there are none |
| Broadcast.BufferLifetime | AuthServ/AuthServer.cpp:1096-1104 | In every reachable state the count is the daemon's hold plus channel entries plus workers sending; a held buffer is not freed, and one that nobody holds has been freed exactly once (also lines 1149-1170) |
| Broadcast.GoneForGood | AuthServ/AuthServer.cpp:1158-1170 | A client that left the list and drained its channel is sent nothing any more |
| Broadcast.AllFreed | streams.h:177-182 | When the daemon is idle and all clients have left and drained, every buffer has been freed exactly once |
| Broadcast.BroadcastReaches | AuthServ/AuthDaemon.cpp:204-266 | From lock to release the daemon visits every listed client exactly once: it is passed by, or the buffer is put into its channel once |
| Broadcast.SentInOrder | AuthServ/AuthServer.cpp:1096-1104 | Over every run, what was before a client and then all that is put for it is what is sent to it and then what is still before it: nothing is lost, doubled or overtaken |
| Broadcast.StageGoes | AuthServ/AuthServer.cpp:1149-1170 | A client is listed from its registration until its removal, and removed from then on |
| SignIn.GrantedBefore | AuthServ/AuthDaemon.cpp:324-372 | Only a finished check grants a player, whatever the workers do meanwhile |
| SignIn.StepCheckSound | AuthServ/AuthDaemon.cpp:324-335 | During the one-by-one check every client that holds the requested player is still to be looked at |
| SignIn.SignInIsExclusive | AuthServ/AuthServer.cpp:218-239 | In no interleaving are two clients confirmed as the same player, and a confirmed client's record is marked online |
| SignIn.StrayIffGivenUp | AuthServ/AuthServer.cpp:218-239 | While every player marked online is some granted client's, a step ends that if and only if a confirmed client writes a new player id, whichever it is |
| SignIn.OnlineMeansGranted | AuthServ/AuthDaemon.cpp:324-372 | In every run in which no confirmed client writes a new player id, a player is marked online only while a client has been granted it and has not disconnected |
| SignIn.FirstStray | AuthServ/AuthServer.cpp:218-239 | After every such run, the next step leaves a stray mark if and only if it is such a write |
| SignIn.OnlineCanOutliveSignIn | AuthServ/AuthServer.cpp:226-229 | Witness: a client that signs in as nobody and leaves can leave its player marked online |
| SignIn.CheckBegins | AuthServ/AuthDaemon.cpp:324-335 | The check of a known player is of all other clients of the list, and of no one else |
| SignIn.RequestEnds | AuthServ/AuthDaemon.cpp:324-372 | A client that asks for a player is confirmed as it exactly when the daemon replies, and gives it up exactly when it is refused |
| SignIn.DaemonGoesOn | AuthServ/AuthDaemon.cpp:324-372 | The daemon looks at each of the others once; when none has the player it marks the player online, then replies, and is idle again only after a reply or a refusal |
| GameHost.OwnerStays | GameServ/GameHost.cpp:223-249 | An owner stays one until its disconnect is handled |
| GameHost.JoinAnswered | GameServ/GameHost.cpp:263-317 | A client that joins is told whether it owns the group: it does exactly when there is no game master; a refused one is told nothing |
| GameHost.StepPresent | GameServ/GameHost.cpp:223-249 | Every step keeps: each registered connection's player is a member, entered with that connection |
| GameHost.HeirOwns | GameServ/GameHost.cpp:236-245 | When the game master leaves there is a new one if and only if some connection is registered; it is a registered one and was told that it owns the group |
| GameHost.StepOwnership | GameServ/GameHost.cpp:223-249 | Every step keeps: told last that it owns the group, and game master, are the same (also lines 292-299) |
| GameHostRuns.GameMasterIsExclusive | GameServ/GameServer.cpp:159-161 | In every reachable state at most one undisconnected client was last told that it owns; it is the game master, and a game master is always such a client (also lines 287-295) |
| GameHostRuns.LockReleasedIff | GameServ/GameHost.cpp:213-221 | A lock is released if and only if its holder unlocks it or its holder's disconnect is handled (also lines 508-515) |
| GameHostRuns.AffirmedIffAllFreed | GameServ/GameHost.cpp:500-515 | After every run a request for the lock on an object is affirmed if and only if every earlier affirmation of it has been freed, by its holder's unlock or disconnect; at most one has not been |
| GameHostRuns.LockHeld | GameServ/GameHost.cpp:492-524 | From affirmation to release a lock stays with its holder, whose disconnect is unprocessed, and every request for it is denied |
| GameHost.GameHost.DoTestAndSet | GameServ/GameHost.cpp:492-524 | The handler changes the lock table and answers as in the protocol |
| GameHost.GameHost.DoJoin | GameServ/GameHost.cpp:292-299 | A client becomes game master exactly when there is none |
| GameHost.GameHost.DoDisconnect | GameServ/GameHost.cpp:213-249 | The erasing loop releases exactly the player's locks, and a leaving game master is replaced by a member, or by nobody |
| SdlParser.StepShrinks | SDL/SdlParser.cpp:508-739 | Every round gets closer to the end of the tokens in spite of push-back, on every token sequence |
| SdlParser.ParseSound | SDL/SdlParser.cpp:501-752 | On every token sequence, every returned descriptor has a version >= 0, a type and a fitting default for each variable, and a map from each name to the last variable so named |
| SdlParser.VarMap | SDL/SdlParser.cpp:572-573 | The map has exactly the names of the variables, each with its last position |
| SdlParser.ConsumesExpected | SDL/SdlParser.cpp:508-739 | A token that the grammar expects leads to the next state without push-back; any other ends the parse |
| SdlTypes.DefaultTest | SDL/StateInfo.cpp:742-850 | An element counts as the default exactly when it equals it, but for a key, which only needs to be null, and an object, which there must not be |
| SdlGrammar.DefaultIsMeaning | SDL/SdlParser.cpp:307-488 | For every type and literal the parser's default is what the grammar says that the literal stands for: a numeric boolean is true exactly when it is not 0, a name or quoted text is that text, a list is its vector or colour; None when it does not fit |
| SdlGrammar.LiteralParses | SDL/SdlParser.cpp:247-305 | A number, name, quoted text or list of numbers that fits the type becomes the default that it stands for |
| SdlGrammar.ItemRun | SDL/SdlParser.cpp:588-737 | A VERSION or VAR item, with its attributes in any order and trailing semicolons, adds what it stands for to the descriptor |
| SdlGrammar.ParseRendered | SDL/SdlParser.cpp:501-752 | Parsing the tokens of any list of well-formed sources, up to the end or an error, returns what they stand for, but for those without a version |
| SdlGrammar.AllReturned | SDL/SdlParser.cpp:741-752 | When every source has a version all of them come back, in order |
| SdlRendering.LiteralBack | SDL/SdlParser.cpp:307-488 | Every default that a source can give is what its literal stands for and what the parser makes of it, component by component for vectors and colours, booleans spelled as names or as any fitting number |
| SdlRendering.ParseOfRendering | SDL/SdlParser.cpp:501-752 | For every list of well-formed descriptors, parsing their token rendering returns exactly those descriptors |
| SdlParserLoop.Parser.ReadValues | SDL/SdlParser.cpp:249-305 | The loop over the push-back list reads the values of a default or stops at what it pushed back |
| SdlParserLoop.Parser.ParseDefaultLoop | SDL/SdlParser.cpp:247-491 | parse_default: the state, the variable and the tokens left |
| SdlParserLoop.Parser.FillVarMap | SDL/SdlParser.cpp:572-573 | The loop fills the map of last positions |
| SdlParserLoop.Parser.EraseUnversioned | SDL/SdlParser.cpp:741-750 | Exactly the descriptors without a version are erased |
| SdlParserLoop.Parser.Parse | SDL/SdlParser.cpp:501-752 | The loop ends on every token sequence and returns what the state machine reads |
| Sha0.PaddingShortest | Types/ShaHash.cpp:138-142 | No shorter multiple of 64 bytes has room for message, bit and length |
| Sha0.PaddingInjective | Types/ShaHash.cpp:136-155 | Messages below 2^61 bytes that are padded alike are the same |
| Sha0.RolIsCircular | Types/ShaHash.cpp:118-122 | rol32 is the circular shift: the high n bits become the low ones |
| Sha0Vectors.FIs | Types/ShaHash.cpp:175-214 | The functions of the four loops in 32-bit vectors: choice, parity, majority, parity |
| Sha0Vectors.ConstantsAre | Types/ShaHash.cpp:127-134 | The constants of the four loops are the integer parts of 2^30 times the square roots of 2, 3, 5 and 10, and the initial hash counts its hexadecimal digits up and down |
| Sha0Vectors.DigestIs | Types/ShaHash.cpp:159-221 | For every hash and block, the eighty steps of section 6.1 of RFC 3174 without S^1 in the schedule, in 32-bit vectors |
| Sha0Vectors.KnownDigest | Types/ShaHash.cpp:124-228 | The hash of the message abc |
| Sha0.FillBuffer | Types/ShaHash.cpp:136-155 | The buffer holds the padding of section 4 of RFC 3174 |
| Sha0.FillWork | Types/ShaHash.cpp:160-169 | The work array is the message schedule of section 6.1 of RFC 3174 without S^1 |
| Sha0.TwentyRounds | Types/ShaHash.cpp:175-214 | Each of the four loops does its twenty steps of section 6.1 of RFC 3174 |
| Sha0.DigestBlock | Types/ShaHash.cpp:159-221 | One block is added to the hash |
| Sha0.InternalSha0 | Types/ShaHash.cpp:124-228 | The loops compute the fold of the method over the padded blocks, byte-swapped at the end |

## Left out

- Floating-point arithmetic: floats are bit patterns with equality, so that `isDefault` on a negative zero or a NaN is not modelled.
- Creatable objects inside variables: a class number and opaque body bytes; their own codecs are straight-line.
- `Variable::read` of a string that ends early, and of the alpha of an RGB8 element in a variable-length array: the code leaves memory uninitialised; the model fails, or reads zero.
- Bytes left over behind a blob: the code only warns about them, and so they are not an error here.
- `e_VarInvalid` variables: the parser never returns one, which `SdlParser.ParseSound` proves.
- SdlCodecLoops.WriteState: does not set e_SameAsDefault in the written cells; `SdlMarks.MarksUnseen` proves that no later blob shows it.
- SdlCodecLoops.ReadStateLoop: works on values, so that a read that fails half-way leaves nothing behind; the code discards the half-read state.
- SdlUpdateLoops.UpdateState: works on values; nested states that the old and the new state share in the code are equal here.
- SdlHosts.Server.StartHost: takes the two parses of the fetched blob as inputs, because a flat variable can be stamped by the clock between them.
- SdlHosts.Server.ChangeGlobal: the text conversions to_bool, to_int and to_uint are inputs.
- SdlHosts.Server.Run: in-place changes and the hosts' reads are atomic; in the code they are unsynchronised between threads.
- StateTable.StateTable.constructor: starts empty; the states that a host loads from the database at its start (GameServ/GameHost.cpp:934-965) are not modelled.
- Nested states in SdlHeap are part of their variable's cell, since nothing changes them in place once they are shared.
- EncryptedStream.EncryptedStream.Create: the base is a memory stream; a file base is modelled as the same byte sequence with a cursor.
- EncryptedStream.CheckEncryption: what the uninitialised array holds where the stream is short is an input, also in `Download`.
- Ciphers.XxteaInverse: for blocks of other than two words an inverse is not claimed; no caller uses one.
- Download.DownloadDelivers: does not model sizes from 2^32 on, which the 32-bit size fields cannot express.
- SignIn.SignInIsExclusive: assumes that database updates succeed and that messages can be put; the vault's other writes to a player record are not modelled.
- Broadcast.BufferLifetime: assumes that messages can be put; a put that throws leaks its reference.
- GameHostRuns.GameMasterIsExclusive: not claimed is that a host with clients always has a game master, which the join and leave race denies.
- SdlGrammar.ParseRendered: the character-level lexer is not modelled, numeric tokens carry the values that the C conversions give them, and a DEFAULT with the wrong number of values is a parse error.
- SdlRendering.ParseOfRendering: defaults that are infinite or not a number are left out, since no numeric token is written for them.
- Sha0.InternalSha0: does not model messages of 2^61 bytes and more, whose bit length overflows.
- Sockets, files, polling, thread creation, timeouts, console, HTTP status, configuration files: plumbing.
- The database and its stored functions, OpenSSL key exchange and RC4, compression, string conversions: foreign calls.
- The many PlasMOUL message codecs, vault field codecs and manifests: straight-line, they would add only easy members.
- One reply per request and freedom from deadlock: the code has neither.
