# Verification of the plugin runners

Dafny models of the parts of this repository where a mistake is hardest to see, with proofs about them.
Each part is modelled in the form its source has: classes with mutable fields, loops over buffers, state
machines for threads and callbacks. `dafny verify dfyconfig.toml` checks everything.

- **DES and Triple-DES** (`plugin-gtk/des.cpp`). `Fips46` writes FIPS 46-3 down bit by bit. `DesTables` and
  `DesWords` hold the tables and word tricks of the program, `Des` and `Des3` its functions on byte and word
  arrays, `Cbc` its CBC loops for any length, in place or between disjoint buffers. `Feistel` and `CbcMode` hold
  the results that need no cipher in particular, `DesTheorems` and `CbcTheorems` what follows for the program:
  the standard is met, decryption inverts encryption for any subkeys, Triple-DES is E-D-E, complementation holds.
  `DesKnownAnswer` works one key and block through to the ciphertext known for them. `DesAnyTables` lets the tables hold anything, and `DesWide` is the same code in 64-bit words, as where
  `unsigned long` is that wide: key setup and block functions give the same bytes. `DupText` is the hex printer of
  `plugin-gtk/plugin.cpp` and its inverse.
- **Remote calls** (`nswinviewr/rpcvm.cpp`). `Rpc` is the marshalling cursors, `RpcDispatch` the reassembly buffer:
  what is dispatched does not depend on how the stream is cut.
- **Player queue** (`nswinviewr/npnetstream.cpp`). `Player` is a state machine of the two threads over a heap of
  cells, with lock and auto-reset event; its invariant holds over every interleaving of one lifetime. `PlayerRuns`
  counts what its runs do: one process at a time, every item asked for, and how soon the next one is started.
- **HTTP streams** (`npprunner/npn_stream.cpp`, `npprunner/npn_network.cpp`). `HttpText` reads headers, as
  `HeaderFields` has a server write them; `UrlParts` takes addresses apart and composes requests, which
  `RequestReader` reads back. `StreamTrace` says which sequences of plugin calls are legal, `Streams`
  is the classes of socket, response and plugin stream, with reference counts, redirects and deletion. Whenever a
  plugin is called it may ask for other streams before it returns. `Streams.Network.Valid` is kept by every event;
  `FoundResponse` is a response that redirects.
- **ELF loader** (`rtld-npp/rtld.c`). `ElfHash` and `ElfSymbols` look names up, `ElfImage` maps segments, `ElfDynamic`
  digests the dynamic section, `ElfEdits`, `ElfReloc`, `ElfRelocTheorems`, `ElfLazy` and `ElfLoad` relocate and
  bind, on bytes of memory.
- **Attribute lists** (`npprunner/netscape.cpp`, `nswinviewr/netscape.cpp`). `AttributeLists` has both parsers and the
  printer they invert.

Sockets, plugins, the process's symbols and thread scheduling answer nondeterministically or are parameters.

## What the proofs found

- The dispatch loop of `rpc_dispatch` ends exactly when no zero length word is reached (`RpcDispatch.LoopEndsIff`,
  and for the method itself `RpcDispatch.Channel.Dispatch`); four zero bytes make it spin (`RpcDispatch.ZerosSpin`). A
  length word below 12 is answered too, by a call whose length has wrapped.
- After the player's final drain `_tailer` dangles exactly when the drain freed something (`Player.TailerDanglesIff`),
  since only the inner loop resets it; one item added just before the cleanup is enough (`Player.TailerDangles`).
- `elf_hash` stays below 2^28 with 32-bit words only; with 64-bit words it agrees exactly when none of the last eight
  additions overflowed (`ElfHash.WideHashAgrees`, `ElfHash.WideHashDiffers`).
- Loading fails exactly for a loadable segment with no file bytes on a page boundary (`ElfImage.DlMmap`,
  `ElfImage.ZerosNotLoaded`). The pointer to the dynamic section is right exactly when the first page is page 0
  (`ElfImage.DynamicIsMapped`, and a file for which it is wrong: `ElfImage.DynamicElsewhere`); `relocbase` plus
  any address of the file is off by the same amount (`ElfImage.RelocbaseIsOff`).
- `R_X86_64_64` falls through, so its addend is lost unless it is 0 (`ElfRelocTheorems.Abs64LosesAddend`); a first
  call through a RELA PLT slot loses its addend too (`ElfLazy.AddendLost`).
- A repeated `DT_STRTAB` passes the assertion against it, because the flag it tests is never set, and the last one wins
  (`ElfDynamic.ObjEntry.DigestDynamic`, `ElfDynamic.StrTabTwice`).
- `parse_argument` copies a negative length for a value that is a single quote (`AttributeLists.ParseArgument`,
  and for `a='` `AttributeLists.QuoteOverruns`).
- The scheme array is read where it was never written exactly if the address does not begin with `http://`
  (`UrlParts.Askable`, and for `ftp://h/` `UrlParts.AskFtp`); a path of 512 bytes or more is left without its end
  (`UrlParts.GetUrlPath`), and the parts hold all of an address exactly if each fits its buffer (`UrlParts.PartsKeepAll`).
- An event on a stream's socket ends the stream, with its `urlnotify`, exactly if it is called back, its response does
  not redirect, and nothing is waited for: the plugin was not out of room, and either the socket's last error is not
  that it would block, or the plugin has declined the stream or refused a write (`Streams.NetStream.Fate`, kept by
  `Streams.NetStream.RecvWrapper` and `Streams.Network.NetworkNotify`). So `urlnotify` never comes where a redirect is
  not followed, because its address does not begin with `http://` or connect fails: with no request left to send that
  could fail, the stream stays through any run and its plugin is told nothing, until a later event follows the redirect
  after all (`Streams.NetStream.Deaf`, `Streams.Network.Run`); a 302 response to `ftp://h/`, or to any other address, is
  an input (`Streams.NetStream.DeafForFound`).
- Every stream ends with `NPRES_DONE`, however its download went (`Streams.ReportsDone`, by
  `Streams.Network.StreamsLawful`): `get_error` gives nothing else.
- If a new socket is writable before it is readable, no later writable event is watched for, so what the first one
  leaves of the request is not sent (`Streams.SocketStream.OnWrite`).
- A partial block is processed whole, so two CBC calls over consecutive parts of a buffer write as far as one call
  exactly if the first length is a multiple of eight or the second is zero (`CbcTheorems.SplitsEvenly`); then they leave
  what the one leaves (`CbcTheorems.EncryptTwice`, `CbcTheorems.DecryptTwice`).

## Model

| member | source | states |
|---|---|---|
| `Feistel.RoundsUndo` | plugin-gtk/des.cpp:379-394 | Rounds with the subkeys reversed, between two swaps, undo the rounds, for any round function and any subkeys. |
| `Feistel.RoundsConcat` | plugin-gtk/des.cpp:379-388 | Rounds under a list of subkeys are rounds under its first part, then under the rest. |
| `Feistel.RoundsOfTwo` | plugin-gtk/des.cpp:381-388 | Rounds under two subkeys are one round after the other. |
| `Feistel.RoundsComplement` | plugin-gtk/des.cpp:270-283 | And so do any number of rounds, for any round function and subkeys of that kind. |
| `Feistel.RoundComplement` | plugin-gtk/des.cpp:270-283 | If complementing the half and exchanging the subkey leaves the round function unchanged, a round takes complemented halves to complemented halves. |
| `Pairs.CopyReversed` | plugin-gtk/des.cpp:363-367 | The loop over pairs of words writes exactly the pairwise reversal of its source. |
| `Pairs.StorePair` | plugin-gtk/des.cpp:365-366 | One step of that loop stores one pair and changes nothing else. |
| `Pairs.PairReverseInterleave` | plugin-gtk/des.cpp:363-367 | Reversing pairs of an interleaved list is interleaving the reversed lists. |
| `Pairs.PairReverseTwice` | plugin-gtk/des.cpp:363-367 | Reversing pairs twice gives the words back. |
| `Fips46.IPAfterFP` | plugin-gtk/des.cpp:242-265 | The final permutation of FIPS 46-3 is undone by the initial one. |
| `Fips46.FPAfterIP` | plugin-gtk/des.cpp:242-265 | And the other way round. |
| `Fips46.CipherUndo` | plugin-gtk/des.cpp:370-394 | The bit-level cipher with reversed subkeys inverts the cipher, for any sixteen subkeys. |
| `Fips46.DecipherEncipher` | plugin-gtk/des.cpp:396-414 | FIPS 46-3 deciphering inverts enciphering for every key and block. |
| `DesWords.Box1` | plugin-gtk/des.cpp:60-78 | Table SB1, at the index the round macro takes, is S-box 1 followed by P, rotated left by one. |
| `DesWords.Box2` | plugin-gtk/des.cpp:80-98 | Table SB2, at the index the round macro takes, is S-box 2 followed by P, rotated left by one. |
| `DesWords.Box3` | plugin-gtk/des.cpp:100-118 | Table SB3, at the index the round macro takes, is S-box 3 followed by P, rotated left by one. |
| `DesWords.Box4` | plugin-gtk/des.cpp:120-138 | Table SB4, at the index the round macro takes, is S-box 4 followed by P, rotated left by one. |
| `DesWords.Box5` | plugin-gtk/des.cpp:140-158 | Table SB5, at the index the round macro takes, is S-box 5 followed by P, rotated left by one. |
| `DesWords.Box6` | plugin-gtk/des.cpp:160-178 | Table SB6, at the index the round macro takes, is S-box 6 followed by P, rotated left by one. |
| `DesWords.Box7` | plugin-gtk/des.cpp:180-198 | Table SB7, at the index the round macro takes, is S-box 7 followed by P, rotated left by one. |
| `DesWords.Box8` | plugin-gtk/des.cpp:200-218 | Table SB8, at the index the round macro takes, is S-box 8 followed by P, rotated left by one. |
| `DesWords.SelectionsByTables` | plugin-gtk/des.cpp:270-283 | The eight table entries together are S1-S8 and P of FIPS 46-3, rotated by one. |
| `DesWords.FByTables` | plugin-gtk/des.cpp:270-283 | What the round macro XORs in is F of FIPS 46-3 on the unrotated half and the subkey unpacked from the two words. |
| `DesWords.DesIpIsIP` | plugin-gtk/des.cpp:242-251 | The four delta-swaps and rotations are the initial permutation, up to the rotation of both halves by one. |
| `DesWords.DesFpIsFP` | plugin-gtk/des.cpp:256-265 | The inverse macro is the final permutation, up to the same rotation. |
| `DesWords.Pc1Macro` | plugin-gtk/des.cpp:296-310 | The swaps and the LHs and RHs tables give the two halves of permuted choice 1. |
| `DesWords.RotateMacro` | plugin-gtk/des.cpp:317-326 | The masked shifts are rotations of the 28-bit halves by the scheduled amounts. |
| `DesWords.Pc2Macro` | plugin-gtk/des.cpp:328-350 | The two masked words hold the subkey of permuted choice 2, in the order the round macro reads it. |
| `DesWords.UnpackPack` | plugin-gtk/des.cpp:328-350 | Packing a subkey into two words and unpacking it gives the subkey. |
| `Des.GetUint32Be` | plugin-gtk/des.cpp:37-45 | Reads four bytes, the first being the most significant. |
| `Des.PutUint32Be` | plugin-gtk/des.cpp:46-54 | Writes the four bytes of a word in that order and nothing else. |
| `Des.BlockInOrder` | plugin-gtk/des.cpp:37-54 | The first byte of a block is its most significant, each next one eight bits lower. |
| `Des.BlockBytes` | plugin-gtk/des.cpp:370-394 | The eight bytes written for a block are read back as that block. |
| `Des.BytesBlock` | plugin-gtk/des.cpp:370-394 | And the other way round. |
| `Des.KeysWords` | plugin-gtk/des.cpp:285-352 | Sixteen subkeys laid out as 32 words are read back. |
| `Des.DesRound` | plugin-gtk/des.cpp:270-283 | One macro call does one round of FIPS 46-3 on the unrotated halves and advances SK by two. |
| `Des.TwoRounds` | plugin-gtk/des.cpp:381-388 | A pair of macro calls is two rounds with the swaps of the standard. |
| `Des.SixteenRounds` | plugin-gtk/des.cpp:381-388 | The eight pairs are the sixteen rounds. |
| `Des.IpSplits` | plugin-gtk/des.cpp:379-379 | The macro leaves the halves of IP of the block, rotated. |
| `Des.FpMerges` | plugin-gtk/des.cpp:390-393 | From the rotated halves the macro makes FP of the swapped block. |
| `Des.DesCrypt` | plugin-gtk/des.cpp:370-394 | The output bytes are the bit-level cipher of the input block under the subkeys in SK, whatever they are; nothing else changes, also in place. |
| `Des.PermutedChoice1` | plugin-gtk/des.cpp:290-310 | The two words are the halves of permuted choice 1 of the key. |
| `Des.NextSubkey` | plugin-gtk/des.cpp:317-350 | A pass of the loop rotates both halves and packs the next subkey of FIPS 46-3. |
| `Des.DesMainKs` | plugin-gtk/des.cpp:285-352 | The 32 words written are the key schedule of FIPS 46-3; the rest of the array is unchanged. |
| `Des.DesContext.SetKey` | plugin-gtk/des.cpp:357-368 | esk holds the schedule and dsk its pairwise reversal. |
| `Des.DesContext.Encrypt` | plugin-gtk/des.cpp:399-404 | Output is the cipher under esk. |
| `Des.DesContext.Decrypt` | plugin-gtk/des.cpp:409-414 | Output is the cipher under dsk. |
| `Des3.FillThree` | plugin-gtk/des.cpp:506-516 | The loop of des3_set_3keys leaves esk and dsk as the three schedules, the middle one reversed. |
| `Des3.FillTwo` | plugin-gtk/des.cpp:479-492 | The loop of des3_set_2keys leaves the contexts of the three-key call with the first key repeated. |
| `Des3.FusedRounds` | plugin-gtk/des.cpp:528-557 | 48 rounds without inner FP and IP, the middle 16 with X and Y exchanged, are three whole ciphers one after another, for any subkeys. |
| `Des3.Des3Crypt` | plugin-gtk/des.cpp:519-561 | The output bytes are those three ciphers of the input block; nothing else changes. |
| `Des3.Des3Context.Set3Keys` | plugin-gtk/des.cpp:498-517 | esk is E, reversed D, E schedules of the three keys; dsk the matching inverse. |
| `Des3.Des3Context.Set2Keys` | plugin-gtk/des.cpp:472-493 | The same contexts as three keys of which the third is the first. |
| `Des3.Des3Context.Encrypt` | plugin-gtk/des.cpp:566-571 | Output is the three ciphers under esk. |
| `Des3.Des3Context.Decrypt` | plugin-gtk/des.cpp:576-581 | Output is the three ciphers under dsk. |
| `DesTheorems.ReversedSubkeysUndo` | plugin-gtk/des.cpp:363-394 | des_crypt with pairwise-reversed subkeys undoes des_crypt for any 32 words. |
| `DesTheorems.ScheduleCloses` | plugin-gtk/des.cpp:315-326 | The sixteen shifts add up to 28, so both halves end where they began. |
| `DesTheorems.SubkeyComplement` | plugin-gtk/des.cpp:328-350 | Complementing a subkey flips its two words under exactly 0x3F3F3F3F. |
| `DesTheorems.KeysComplement` | plugin-gtk/des.cpp:285-352 | Complementing all key bits complements both halves at every step of the schedule. |
| `DesTheorems.RoundsAreBlind` | plugin-gtk/des.cpp:270-283 | So in every round F is unchanged when key and half are complemented. |
| `DesTheorems.EncipherComplement` | plugin-gtk/des.cpp:370-394 | Complementing key and plaintext complements the ciphertext. |
| `DesTheorems.ContextIsFips` | plugin-gtk/des.cpp:357-414 | After des_set_key, des_encrypt is FIPS 46-3 enciphering and des_decrypt is deciphering, for every key and block. |
| `DesKnownAnswer.KnownAnswer` | plugin-gtk/des.cpp:357-414 | For one key and plaintext the sixteen subkeys and rounds of the standard give the ciphertext known for them. |
| `DesKnownAnswer.KnownBytes` | plugin-gtk/des.cpp:357-414 | In bytes: a context set up for 13 34 57 79 9B BC DF F1 takes 01 23 45 67 89 AB CD EF to 85 E8 13 54 0F 0A B4 05, and back. |
| `DesTheorems.TripleIsEde` | plugin-gtk/des.cpp:498-581 | After des3_set_3keys, des3_encrypt is E-D-E and des3_decrypt D-E-D of FIPS 46-3. |
| `DesTheorems.TripleUndo` | plugin-gtk/des.cpp:566-581 | des3_decrypt inverts des3_encrypt for every three keys and block. |
| `CbcMode.DecryptEncrypt` | plugin-gtk/des.cpp:419-467 | CBC decryption with the same IV restores the plaintext, for any pair of inverse block functions. |
| `CbcMode.EncryptDecrypt` | plugin-gtk/des.cpp:419-467 | And encryption restores the ciphertext. |
| `CbcMode.EncryptedConcat` | plugin-gtk/des.cpp:427-438 | Encrypting in two calls, the second from the last block of the first, is one call. |
| `CbcMode.DecryptedConcat` | plugin-gtk/des.cpp:453-466 | The same for decrypting. |
| `CbcMode.EncryptedAt` | plugin-gtk/des.cpp:429-433 | Each ciphertext block is the cipher of plaintext XOR previous ciphertext, as section 6.2 of SP 800-38A has it. |
| `CbcMode.DecryptedAt` | plugin-gtk/des.cpp:455-461 | Each plaintext block is the deciphered block XOR previous ciphertext. |
| `Cbc.EncryptStep` | plugin-gtk/des.cpp:429-437 | One pass of the loop: XOR, cipher in place, IV replaced. |
| `Cbc.DecryptStep` | plugin-gtk/des.cpp:455-465 | One pass of the decrypting loop, safe in place because of temp. |
| `Cbc.CbcEncrypt` | plugin-gtk/des.cpp:419-439 | For any length, in place or disjoint, DES or Triple-DES: output is CBC of the input, iv the last ciphertext block, all else unchanged. |
| `Cbc.CbcDecrypt` | plugin-gtk/des.cpp:444-467 | The same for decryption, iv again the last ciphertext block. |
| `CbcTheorems.CryptUndo` | plugin-gtk/des.cpp:370-394 | Cipher and reversed cipher of 32 or 96 words undo each other on every block. |
| `CbcTheorems.DesSetupReverses` | plugin-gtk/des.cpp:357-368 | A DES context holds such a pair. |
| `CbcTheorems.TripleSetupReverses` | plugin-gtk/des.cpp:472-517 | So does a Triple-DES context. |
| `CbcTheorems.CbcUndo` | plugin-gtk/des.cpp:419-467 | CBC decryption with such a pair restores any number of blocks. |
| `CbcTheorems.BlocksDetermine` | plugin-gtk/des.cpp:419-467 | What a CBC call promises, its blocks and no other byte changed, determines the buffer. |
| `CbcTheorems.RoundTrip` | plugin-gtk/des.cpp:419-467 | On buffers: encrypting and then decrypting with the IV there was before gives back every byte, for any length, from buffer to buffer, in place or in any mixture, DES or Triple-DES. |
| `CbcTheorems.EncryptTwice` | plugin-gtk/des.cpp:419-439 | Two calls, the first over a multiple of eight bytes, leave output and iv as one call over both lengths does. |
| `CbcTheorems.DecryptTwice` | plugin-gtk/des.cpp:444-467 | So do two decrypting calls. |
| `CbcTheorems.SplitsEvenly` | plugin-gtk/des.cpp:427-438 | Two calls write exactly as far as one if and only if the first length is a multiple of eight or nothing follows it. |
| `DesAnyTables.AnyTablesUndo` | plugin-gtk/des.cpp:270-394 | With reversed subkey pairs the block function undoes itself whatever the eight S-tables hold, for any even number of subkey words. |
| `DesAnyTables.StandardIsCipher` | plugin-gtk/des.cpp:60-218 | With the tables of the program that block function is the bit-level cipher. |
| `DesAnyTables.RoundsUnrotated` | plugin-gtk/des.cpp:270-283 | Rounds on the rotated words are rounds of FIPS 46-3 on the halves they stand for, for any subkey words. |
| `DesWide.Subscripts` | plugin-gtk/des.cpp:272-282 | The subscripts of a round are those of the low 32 bits of its index word, whatever is above. |
| `DesWide.WideRound` | plugin-gtk/des.cpp:270-283 | In 64-bit words the round macro is the round of FIPS 46-3 on the low halves, for subkey words with any high halves, and its words stay within 32 bits. |
| `DesWide.WideSixteenRounds` | plugin-gtk/des.cpp:381-388 | So are the sixteen rounds. |
| `DesWide.IpSpreads` | plugin-gtk/des.cpp:242-251 | The initial permutation in 64-bit words leaves the two words of the 32-bit one. |
| `DesWide.FpSpreads` | plugin-gtk/des.cpp:256-265 | So does the final permutation. |
| `DesWide.WideCrypt` | plugin-gtk/des.cpp:370-394 | des_crypt in 64-bit words writes the bytes of the bit-level cipher under the low halves of its subkey words, also in place. |
| `DesWide.Wide3Crypt` | plugin-gtk/des.cpp:519-561 | des3_crypt in 64-bit words writes the bytes of the three ciphers one after another. |
| `DesWide.SwapsSpread` | plugin-gtk/des.cpp:296-297 | The swaps before permuted choice 1 in 64-bit words leave the two words of the 32-bit ones. |
| `DesWide.WidePc1` | plugin-gtk/des.cpp:299-312 | The table lookups of permuted choice 1 agree in both widths. |
| `DesWide.WideNextSubkey` | plugin-gtk/des.cpp:319-350 | A pass of the schedule in 64-bit words leaves the rotated key register and the subkey words of FIPS 46-3 with nothing above 32 bits. |
| `DesWide.WideMainKs` | plugin-gtk/des.cpp:285-352 | The 32 words written are the key schedule of FIPS 46-3; the rest of the array is unchanged. |
| `DesWide.WideSetKey` | plugin-gtk/des.cpp:357-368 | So is the context: the schedule, and its pairwise reversal. |
| `DesWide.WideIsFips` | plugin-gtk/des.cpp:357-414 | Key setup and either block function, all in 64-bit words, give the bytes of FIPS 46-3 enciphering and deciphering for every key and block. |
| `DupText.TakeBlock` | plugin-gtk/plugin.cpp:64-68 | A block is the next eight bytes of the text, zeros after its end, which is not passed. |
| `DupText.SealText` | plugin-gtk/plugin.cpp:63-76 | The loop enciphers the text block by block, up to 80 bytes. |
| `DupText.PrintHex` | plugin-gtk/plugin.cpp:86-90 | Every byte is printed as two upper-case digits behind the template. |
| `DupText.DigitIs` | plugin-gtk/plugin.cpp:87-90 | A digit is 0 to 9, or A to F for ten to fifteen. |
| `DupText.TplIs` | plugin-gtk/plugin.cpp:54-54 | The template is 3DES_2_, thirty zeros and an underscore. |
| `DupText.DupText` | plugin-gtk/plugin.cpp:49-96 | The whole string returned: the template, and for a non-empty text the hex of its first 80 bytes sealed under the E-D-E words of the keys, in a buffer filled exactly. |
| `DupText.UnhexHex` | plugin-gtk/plugin.cpp:87-90 | Reading the hex gives the bytes. |
| `DupText.OpenedSealed` | plugin-gtk/plugin.cpp:63-76 | Deciphering the sealed blocks gives the padded text. |
| `DupText.SealedTextOpens` | plugin-gtk/plugin.cpp:49-93 | For any 96 subkey words, unhexing the output and deciphering it with the words pairwise reversed gives the first 80 bytes of the text, zero-padded to a block. |
| `DupText.CStringPadded` | plugin-gtk/plugin.cpp:63-68 | Up to its first zero that is the text itself, cut at 80 bytes. |
| `LittleEndian.WordOfBytes` | nswinviewr/rpcvm.cpp:53-60 | The four bytes of a word give the word back. |
| `LittleEndian.BytesOfWord` | nswinviewr/rpcvm.cpp:53-60 | And the bytes of a word are those it was read from. |
| `LittleEndian.FirstByteLeast` | nswinviewr/rpcvm.cpp:53-60 | The first byte counts ones: 256 times a number is a zero byte and the first three of the number. |
| `Rpc.RpcCall.constructor` | nswinviewr/rpcvm.cpp:77-86 | Cursors at 0 and 12, an output buffer of 160 KiB. |
| `Rpc.RpcCall.Push32` | nswinviewr/rpcvm.cpp:88-102 | Appends the value, or aborts exactly when the bound assertion fails. |
| `Rpc.RpcCall.Push16` | nswinviewr/rpcvm.cpp:104-110 | The same for 16 bits. |
| `Rpc.RpcCall.Pop32` | nswinviewr/rpcvm.cpp:26-33 | Takes the value at the cursor exactly if a byte more than it is left; else aborts and does not move. |
| `Rpc.RpcCall.Pop16` | nswinviewr/rpcvm.cpp:35-42 | The same for 16 bits. |
| `Rpc.RpcCall.Result` | nswinviewr/rpcvm.cpp:125-136 | Byte for byte: the length of the whole, call number 0, the given sequence number, the pushed values, and a zero byte. |
| `Rpc.PopsReturnPushes` | nswinviewr/rpcvm.cpp:17-136 | Matching pops give the pushed values in order and no bound assertion fails. |
| `Rpc.TrailingByteNeeded` | nswinviewr/rpcvm.cpp:129-129 | Without the trailing byte the last pop would abort. |
| `RpcDispatch.UnitsAppend` | nswinviewr/rpcvm.cpp:153-171 | Parsing may stop anywhere and go on from the residue. |
| `RpcDispatch.Conservation` | nswinviewr/rpcvm.cpp:146-170 | Bytes received are bytes dispatched plus residue, for length words too short for a header as well. |
| `RpcDispatch.FragmentationIndependent` | nswinviewr/rpcvm.cpp:141-174 | However a stream is cut, the same units are dispatched in the same order. |
| `RpcDispatch.FrameDelimited` | nswinviewr/rpcvm.cpp:153-170 | A frame that fits is delimited exactly, whatever follows. |
| `RpcDispatch.ReplyDelimited` | nswinviewr/rpcvm.cpp:125-170 | Every reply the push assertions let through is delimited by the other side: its length cannot reach the capacity. |
| `RpcDispatch.UnitAt` | nswinviewr/rpcvm.cpp:153-168 | What is dispatched as the k-th unit is what the three words and the bytes where it starts say. |
| `RpcDispatch.RepliedCarries` | nswinviewr/rpcvm.cpp:125-168 | In bytes: call number and payload of each whole frame went to the handler, and the four bytes of its sequence number stand in its reply, behind a zero call number. |
| `RpcDispatch.ManyFrames` | nswinviewr/rpcvm.cpp:153-171 | A stream of frames is parsed into those frames, with nothing left. |
| `RpcDispatch.LoopEndsIff` | nswinviewr/rpcvm.cpp:153-171 | For any bytes at all, the loop ends if and only if getting on from length word to length word never reaches a zero one. |
| `RpcDispatch.ZeroIsHit` | nswinviewr/rpcvm.cpp:153-171 | That is exactly where the parse of Channel.Dispatch stops for a zero length word. |
| `RpcDispatch.ZerosSpin` | nswinviewr/rpcvm.cpp:153-171 | Four zero bytes make the loop spin. |
| `RpcDispatch.Channel.Append` | nswinviewr/rpcvm.cpp:146-147 | The fragment is copied behind what is buffered. |
| `RpcDispatch.Channel.Drop` | nswinviewr/rpcvm.cpp:169-170 | memmove leaves exactly the bytes behind the frame. |
| `RpcDispatch.Channel.Answer` | nswinviewr/rpcvm.cpp:166-168 | What stands at the front goes to the handler, a frame as its call number and payload, and the reply carries its sequence number. |
| `RpcDispatch.Channel.DispatchFirst` | nswinviewr/rpcvm.cpp:166-170 | One pass: one unit dispatched, one reply, buffer closed up; what was and is still to be dispatched stays the same. |
| `RpcDispatch.Channel.DispatchAll` | nswinviewr/rpcvm.cpp:153-171 | The loop: everything up to the residue is dispatched once, in order, with one reply each, and why it stops is what the residue says; or a call aborted. |
| `RpcDispatch.Channel.Dispatch` | nswinviewr/rpcvm.cpp:141-174 | After a call everything received up to the residue has been dispatched once, in order, with one reply each, which carries the sequence number of its frame byte for byte, and the buffer holds the residue; it does not come back exactly for a zero length word, or an assertion stopped it: that of the buffer, of the frame, of a call, or, exactly for a call from inside itself, the one on callref. |
| `Player.InvInitial` | nswinviewr/npnetstream.cpp:873-881 | The invariant holds when the player thread has been started. |
| `Player.InvKept` | nswinviewr/npnetstream.cpp:798-895 | Every enabled step of either thread follows only valid pointers and keeps the invariant. |
| `Player.RunKeeps` | nswinviewr/npnetstream.cpp:798-895 | So does every run. |
| `Player.NeverUnsafe` | nswinviewr/npnetstream.cpp:798-868 | No reachable step touches a freed cell. |
| `Player.FirstInFirstOut` | nswinviewr/npnetstream.cpp:807-868 | Items leave in the order they came, and none is lost or repeated. |
| `Player.AllFreedOnce` | nswinviewr/npnetstream.cpp:841-895 | When cleanup has returned, every cell has been freed exactly once and every item was played or drained. |
| `Player.TailerAddressesLastLink` | nswinviewr/npnetstream.cpp:815-865 | Outside the two assignments of an append, and until the final drain frees something, _tailer addresses the last link. |
| `Player.TailerDanglesIff` | nswinviewr/npnetstream.cpp:841-847 | After the lifetime _tailer dangles if and only if the drain freed something. |
| `Player.TailerDangles` | nswinviewr/npnetstream.cpp:841-847 | A whole lifetime of thirteen steps after which it dangles: one item added, then the cleanup. |
| `Player.NoLostWakeup` | nswinviewr/npnetstream.cpp:800-867 | A consumer waiting on the empty queue with items or h_quit there can wake, or a SetEvent is still to come. |
| `Player.CleanupNotStuck` | nswinviewr/npnetstream.cpp:883-895 | While cleanup waits, some step of the player or the join is enabled, without any process having to end. |
| `Player.CleanupProgress` | nswinviewr/npnetstream.cpp:798-895 | And every step of the player brings the join nearer. |
| `Player.LinkStepKeeps` | nswinviewr/npnetstream.cpp:863-864 | Assigning through _tailer keeps the invariant. |
| `Player.UnlinkStepKeeps` | nswinviewr/npnetstream.cpp:815-821 | Taking the first item off keeps it, with _tailer reset when the queue empties. |
| `Player.DrainStepKeeps` | nswinviewr/npnetstream.cpp:841-847 | So does each pass of the drain. |
| `PlayerRuns.OneProcess` | nswinviewr/npnetstream.cpp:813-839 | In every run at most one process has been started and not seen to end; the player waits for a process exactly while there is one, and starts no other meanwhile. |
| `PlayerRuns.NextSoon` | nswinviewr/npnetstream.cpp:798-839 | Without h_quit, with no process to wait for, the player starts an item or waits for one after at most five of its own steps, whatever the main thread does; if an item is linked when it looks, that is started. |
| `PlayerRuns.NextItemStarted` | nswinviewr/npnetstream.cpp:831-839 | So when a process has ended and an item is linked, the next one is started within six steps of the player. |
| `PlayerRuns.PlayerGoesOn` | nswinviewr/npnetstream.cpp:798-849 | Nothing stops the player but an empty queue without a signal, or the lock while the main thread holds it and can go on. |
| `PlayerRuns.WakesAreSignalled` | nswinviewr/npnetstream.cpp:800-802 | No more waits are ended by the event than SetEvent was called, less a signal no wait has taken yet. |
| `PlayerRuns.NoneForgotten` | nswinviewr/npnetstream.cpp:853-867 | Every item asked for is linked in, in order, but for the one in hand; CreateProcess is called once for each one played. |
| `HttpText.ParseContentLength` | npprunner/npn_stream.cpp:540-559 | Value of the digits behind the first "Content-Length: " and blanks, at most 511 of them; 0 without it. |
| `HttpText.ParseRedirectLocation` | npprunner/npn_stream.cpp:499-538 | The word behind the first "Location: " exactly for the status lines of 301 and 302 of HTTP/1.0 and 1.1. |
| `HttpText.ParseMimeType` | npprunner/npn_stream.cpp:561-593 | The letters, digits, dashes and slashes behind the first "Content-Type: " and blanks, at most 255 of them; nothing without it. |
| `HeaderFields.LengthRead` | npprunner/npn_stream.cpp:540-559 | A length below 2^31 - 1 written in decimal, behind any blanks, is read as that number. |
| `HeaderFields.TypeRead` | npprunner/npn_stream.cpp:561-593 | A type of letters, digits, dashes and slashes is read as it stands, cut to 255 bytes. |
| `HeaderFields.AddressRead` | npprunner/npn_stream.cpp:516-538 | Under those status lines an address is read as it stands, up to a blank or the end of its line. |
| `HeaderFields.StatusLines` | npprunner/npn_stream.cpp:506-514 | They are HTTP/1.0 or 1.1 with 301 or 302, byte for byte, and no others. |
| `HeaderFields.ValueOfDecimal` | npprunner/npn_stream.cpp:557-557 | Reading the decimal digits of a number gives the number. |
| `HttpText.TitleMatches` | npprunner/npn_stream.cpp:506-514 | The rewritten title equals the one compared with exactly for those four status lines. |
| `HttpText.FirstExtends` | npprunner/npn_stream.cpp:315-317 | What strstr finds in a part of the response is the first such place of the whole. |
| `UrlParts.GetSchema` | npprunner/npn_network.cpp:24-33 | The scheme array is written, with http:// and a zero, exactly if the address begins so. |
| `UrlParts.SchemaDiffers` | npprunner/npn_network.cpp:157-161 | strncmp reads an unwritten cell exactly if the cells before it are written and agree; otherwise it tells whether the cells differ from http://. |
| `UrlParts.Askable` | npprunner/npn_network.cpp:152-161 | An unwritten cell is read if and only if the address does not begin with http://; one that does is asked for. |
| `UrlParts.AskFtp` | npprunner/npn_network.cpp:24-33 | For ftp://h/ it is. |
| `UrlParts.GetHostname` | npprunner/npn_network.cpp:35-64 | The name up to a slash, a colon or the end, cut to the buffer, and where it ends. |
| `UrlParts.GetPorttext` | npprunner/npn_network.cpp:66-95 | The colon and what follows it up to a slash or the end, cut to the buffer; empty without a colon. |
| `UrlParts.GetUrlPath` | npprunner/npn_network.cpp:97-108 | The rest of the address if it fits with its zero, / if there is none; a longer one leaves the buffer without a zero. |
| `UrlParts.SplitUrl` | npprunner/npn_network.cpp:152-161 | The four in turn give the parts of the address. |
| `UrlParts.SplitJoined` | npprunner/npn_network.cpp:152-155 | An address put together from a host, a port and a path that fit is taken apart into them. |
| `UrlParts.PartsKeepAll` | npprunner/npn_network.cpp:152-155 | The parts hold all of an address if and only if each fits its buffer. |
| `RequestReader.RequestRead` | npprunner/npn_network.cpp:184-190 | A request is read line by line, as the lines of method, host, agent, types, the page it comes from, and connection, and then the body. |
| `RequestReader.ReadBack` | npprunner/npn_network.cpp:184-190 | Reading a request back gives GET, or POST for a body, the path, the host with its port, the page a redirect comes from, and the body. |
| `StreamTrace.PhaseLawful` | npprunner/npn_stream.cpp:595-745 | A call sequence is accepted by the automaton if and only if it keeps the rules stated event by event; the phase then describes it. |
| `Streams.SocketStream.Close` | npprunner/npn_stream.cpp:89-99 | Unregisters the descriptor once. |
| `Streams.SocketStream.RecvData` | npprunner/npn_stream.cpp:142-148 | Returns the next bytes, the end only at the end, or an error; sets the last error. |
| `Streams.SocketStream.SendData` | npprunner/npn_stream.cpp:150-156 | The same for sending. |
| `Streams.SocketStream.RecvChunk` | npprunner/npn_stream.cpp:158-172 | The chunk grows by exactly the bytes received, until full, end or error. |
| `Streams.SocketStream.SendChunk` | npprunner/npn_stream.cpp:174-186 | What has been sent is a prefix of the request, all of it when the result is not an error. |
| `Streams.SocketStream.OnRead` | npprunner/npn_stream.cpp:111-116 | A readable event leaves the stream behind the socket settled: ready again, or ended; the plugin's stream is called back exactly if the head is over. |
| `Streams.SocketStream.OnWrite` | npprunner/npn_stream.cpp:118-128 | So does a writable event, which calls it back only when sending has failed; after the first one of a new socket no other is watched for. |
| `Streams.HeadFound` | npprunner/npn_stream.cpp:315-341 | Where the code finds the head to end is where the body of the whole response starts. |
| `Streams.HeadEnough` | npprunner/npn_stream.cpp:315-340 | A head with its end is over at once if its stated length is below 120000, and else with twelve bytes behind it. |
| `Streams.HeadMissing` | npprunner/npn_stream.cpp:342-346 | Without its end it is waited for, and has failed when no more comes. |
| `Streams.VideoMarks` | npprunner/npn_stream.cpp:280-287 | The marks looked for are FLV, or ftyp from the fifth byte on. |
| `Streams.StartServing` | npprunner/npn_stream.cpp:322-329 | With the zero written, the buffer holds the head as a C string, and the rest of what was collected is the start of the body. |
| `Streams.ProtoStream.Receive` | npprunner/npn_stream.cpp:289-349 | The verdict on the head is that of the bytes received, and of whether that was all: the waiting stream is not notified only where the socket would block or has just filled the buffer, and a connection closed before the head is over is an error it is told of. |
| `Streams.ProtoStream.ReadHead` | npprunner/npn_stream.cpp:315-347 | The tests on length and bound decide the verdict. |
| `Streams.ProtoStream.Transmit` | npprunner/npn_stream.cpp:359-378 | Sends more of the request; the waiting stream is notified, and the response marked failed, exactly if there was something to send and the socket failed with anything but would-block. |
| `Streams.ProtoStream.OnRead` | npprunner/npn_stream.cpp:289-349 | The waiting stream is called back exactly if the head is over or has failed, and is sound afterwards. |
| `Streams.ProtoStream.OnWrite` | npprunner/npn_stream.cpp:359-378 | The waiting stream is called back only where sending has failed for good, with part of the request unsent, and is sound afterwards. |
| `Streams.ProtoStream.Ref` | npprunner/npn_stream.cpp:380-384 | Counts up. |
| `Streams.ProtoStream.Rel` | npprunner/npn_stream.cpp:386-393 | Counts down, and at 0 closes and unregisters the socket. |
| `Streams.ProtoStream.Response` | npprunner/npn_stream.cpp:419-422 | What it gives is exactly the head of the response. |
| `Streams.ProtoStream.RecvData` | npprunner/npn_stream.cpp:430-449 | Hands on the next bytes of the body, first what was collected with the head, and the end only when all of it was handed on. |
| `Streams.OpenProto` | npprunner/npn_network.cpp:174-182 | A new response exactly if connect succeeds, alone counted, on a fresh registered descriptor; nothing is left behind otherwise. |
| `Streams.RedirectUrlNotify` | npprunner/npn_network.cpp:201-246 | The same for a redirect, whose address with http:// is always asked for; its request is the text for the parts of the address, naming the page it comes from. |
| `Streams.NetStream.Delete` | npprunner/npn_stream.cpp:611-630 | destroystream exactly if newstream succeeded, then urlnotify, both told that the download is done, then the response is released. |
| `Streams.NetStream.FollowRedirect` | npprunner/npn_stream.cpp:659-672 | The stream changes to the new response and the old one is gone, or nothing changes, and then the address had no http:// or connect failed. |
| `Streams.NetStream.OpenStream` | npprunner/npn_stream.cpp:675-712 | newstream gets the type, whether ranges are accepted, the head of the response and its stated length; failure leads to deletion. |
| `Streams.NetStream.Transfer` | npprunner/npn_stream.cpp:722-735 | One recv and at most one write of exactly those bytes at the offset accepted so far. |
| `Streams.NetStream.Pump` | npprunner/npn_stream.cpp:714-744 | Stops alive if and only if the plugin has no room, or the socket would block and no write was refused; to be deleted only at the end, after a refused write or on failure. |
| `Streams.NetStream.Deliver` | npprunner/npn_stream.cpp:675-744 | newstream if it is due, then the body; nothing is said to the plugin before a response is there. The stream is kept if and only if the plugin has no room, or the socket would block and the plugin has neither declined the stream nor refused a write. |
| `Streams.NetStream.OnRead` | npprunner/npn_stream.cpp:634-745 | Between events the stream is sound, holds one response, and the globals name its socket; a redirect is answered without a word to the plugin, and without one the stream is kept if and only if its plugin has no room, or its socket would block and the plugin has put no end to it. A redirect not followed leaves response and address as they were. |
| `Streams.NetStream.RecvWrapper` | npprunner/npn_stream.cpp:753-770 | The re-entrance assertion holds; the stream has ended if and only if its response does not redirect and nothing is waited for, and else is ready again. |
| `Streams.NetStream.Call` | npprunner/npn_stream.cpp:611-745 | Wherever a plugin is called it may ask for any number of other streams; the one it was called for, its response and all other descriptors stay as they are. |
| `Streams.NetStream.DeafForFound` | npprunner/npn_stream.cpp:659-672 | A stream with a 302 response, to ftp://h/ or any other address, and with its request sent, is one that no event ends while the redirect is not followed. |
| `Streams.FoundRedirects` | npprunner/npn_stream.cpp:499-530 | Such a response is all head, and redirects to its address, whatever that is. |
| `Streams.Globals.Ask` | npprunner/npn_network.cpp:138-199 | A request, got or posted, from wherever it is made: one new stream, ready, told nothing and sharing nothing, or none; no other descriptor or response is touched; one for a window is dropped. |
| `Streams.Globals.OneMore` | npprunner/npn_network.cpp:152-199 | Streams asked for in one callback share nothing, and account for all new descriptors and responses. |
| `Streams.Launch` | npprunner/npn_network.cpp:152-199 | A request leaves a ready stream holding its response with count 1, whose request is the text for the parts of the address, exactly if it was asked for and connect succeeded. |
| `Streams.Network.NetworkNotify` | npprunner/npn_stream.cpp:487-497 | Every report on any descriptor keeps the invariant of the whole program and touches one stream, whatever plugins ask for meanwhile; that stream has ended if and only if it was called back, has no redirect and nothing is waited for. A stream whose redirect was not followed stays, and is told nothing. |
| `Streams.Network.OnReadable` | npprunner/npn_stream.cpp:489-491 | So does its first half. Where the head was not over, the stream then waits only for more of it, or with a buffer just filled; a response that failed, as one whose connection was closed before its empty line, ends it, unless an error left by send says that the socket would block. |
| `Streams.Network.OnWritable` | npprunner/npn_stream.cpp:493-496 | And its second. |
| `Streams.Network.Request` | npprunner/npn_network.cpp:138-199 | A request, got or posted, keeps the invariant too; it adds one stream and touches no other. |
| `Streams.Network.Run` | npprunner/npn_stream.cpp:487-497 | Any sequence of reports and requests keeps the invariant; through all of it a stream whose redirect was not followed, and that still has that response, is alive and its plugin has not been called. |
| `Streams.Network.Admit` | npprunner/npn_network.cpp:152-199 | Streams asked for inside a callback are like any other afterwards. |
| `Streams.Network.WhyUntold` | npprunner/npn_stream.cpp:634-745 | A live stream whose plugin was never called waits for its head, has a redirect that was not followed, or has failed; in the last case a socket that would block still has part of the request to send, and is watched for that. |
| `Streams.Network.Kept` | npprunner/npn_stream.cpp:753-770 | A callback on one stream leaves every other stream, and the ownership of responses and sockets, intact. |
| `Streams.Network.StreamsLawful` | npprunner/npn_stream.cpp:595-770 | At every moment, with requests made inside callbacks, each plugin has been called by the rules; it was given the head of a response that is no redirect; accepted writes are contiguous and make a prefix of its body, all of it if the end was met while streaming; urlnotify came exactly if the stream is over, and it was then reported done, however the download went. |
| `Streams.Network.OneResponseEach` | npprunner/npn_stream.cpp:380-393 | Live streams and live responses correspond one to one, each counted once, and the registered descriptors are theirs. |
| `ElfHash.HashName` | rtld-npp/rtld.c:664-679 | The loop computes the hash character by character in 32-bit words. |
| `ElfHash.StepPlain` | rtld-npp/rtld.c:671-676 | One character in arithmetic on 32-bit words: of sixteen times the hash plus the character, the remainder modulo 2^28, with sixteen times the quotient XORed in. |
| `ElfHash.HashOfSyscall` | rtld-npp/rtld.c:664-679 | The hash of syscall, which folds, is 0x0B09985C, as the System V ABI has it. |
| `ElfHash.HashBelow` | rtld-npp/rtld.c:671-676 | After every character it is below 2^28. |
| `ElfHash.HashHalves` | rtld-npp/rtld.c:671-676 | The 64-bit computation has the 32-bit hash in its low half. |
| `ElfHash.WideHashAgrees` | rtld-npp/rtld.c:671-676 | It equals it if and only if none of the last eight additions overflowed 32 bits. |
| `ElfHash.WideHashDiffers` | rtld-npp/rtld.c:671-676 | A name for which it does not. |
| `ElfSymbols.EndsOrNever` | rtld-npp/rtld.c:692-692 | A chain that has not ended after as many symbols as there are never does. |
| `ElfSymbols.LookupFindsAll` | rtld-npp/rtld.c:681-722 | On a well-formed table a lookup finds a symbol if and only if any eligible symbol of the whole table has the name. |
| `ElfSymbols.LookupGivesAddress` | rtld-npp/rtld.c:681-722 | There the pointer returned is not NULL if and only if any eligible symbol of the whole table has the name, where no own symbol lands on address 0. |
| `ElfSymbols.LookupFindsTheOne` | rtld-npp/rtld.c:681-722 | If only one has it, that one is found. |
| `ElfSymbols.LookupReaches` | rtld-npp/rtld.c:681-722 | A defined symbol that following the chains from the bucket of its hash comes to is found, at its address plus the load address, if no other has its name. |
| `ElfSymbols.IsCandidate` | rtld-npp/rtld.c:702-713 | The switch lets exactly the eligible symbols through. |
| `ElfSymbols.DlSym` | rtld-npp/rtld.c:681-722 | Ends, and returns the rebased address of the first eligible symbol on the chain with the name, or 0. |
| `ElfSymbols.FindSymdef` | rtld-npp/rtld.c:163-229 | Any reference that is not local and has a fixup is that fixup, whatever the object and the process hold; then the own table, then the process, then 0 for a weak one; missing only for PLT calls; else the assertion. |
| `ElfSymbols.ResolvedInOrder` | rtld-npp/rtld.c:163-229 | The same of the meaning of a reference that the laws about relocation speak of. |
| `ElfSymbols.ResolveAnywhere` | rtld-npp/rtld.c:163-229 | What a reference stands for does not depend on the load address. |
| `ElfImage.MapFixed` | rtld-npp/rtld.c:617-621 | File pages at a fixed place, inside the reservation; an empty range fails. |
| `ElfImage.LoadSegment` | rtld-npp/rtld.c:609-651 | One segment: file bytes below p_filesz, zeros up to p_memsz, nothing outside its pages; if the system grants the calls it fails exactly for no file pages. |
| `ElfImage.SegmentBuilt` | rtld-npp/rtld.c:609-651 | The file pages with their tail cleared make that segment. |
| `ElfImage.Pages` | rtld-npp/rtld.c:609-611 | Page arithmetic of a congruent segment; its file range is empty exactly for no file bytes on a page boundary. |
| `ElfImage.Scan` | rtld-npp/rtld.c:550-588 | Base and limit are the first and last page of the loadable segments, and the last dynamic header is kept. |
| `ElfImage.ExtentSpans` | rtld-npp/rtld.c:552-586 | They are multiples of 4096, less than a page from the beginning of the first loadable segment and the end of the last. |
| `ElfImage.DynamicIsLast` | rtld-npp/rtld.c:558-562 | No dynamic header comes after the one kept. |
| `ElfImage.DlMmap` | rtld-npp/rtld.c:526-662 | For sorted, page-disjoint, congruent segments: every one is there, in a reservation of exactly their extent; if the system grants the mappings and protections, loading fails if and only if some segment has no file pages. |
| `ElfImage.DynamicIsMapped` | rtld-npp/rtld.c:656-659 | Of what elf_dlmmap leaves, for a dynamic section inside a loadable segment: its file bytes lie where the reservation has them, and the pointer kept is the address of that place if and only if the first page is page 0. |
| `ElfImage.RelocbaseIsOff` | rtld-npp/rtld.c:605-657 | relocbase plus an address of the file is off the place of that address by the address of the first page, for every address. |
| `ElfImage.DynamicElsewhere` | rtld-npp/rtld.c:656-659 | A file that loads and whose dynamic pointer is wrong. |
| `ElfImage.ZerosNotLoaded` | rtld-npp/rtld.c:617-621 | A segment of zeros on a page boundary is never loaded. |
| `ElfDynamic.ObjEntry.Check` | rtld-npp/rtld.c:249-361 | Repeated tags and wrong entry sizes stop loading. |
| `ElfDynamic.ObjEntry.Store` | rtld-npp/rtld.c:249-362 | Each tag fills its own field. |
| `ElfDynamic.ObjEntry.FirstPass` | rtld-npp/rtld.c:239-368 | After the first pass each field is given by its own tags alone, and needed libraries are counted. |
| `ElfDynamic.ObjEntry.SecondPass` | rtld-npp/rtld.c:370-390 | As many handles as counted, the i-th from the i-th needed name. |
| `ElfDynamic.ObjEntry.DigestDynamic` | rtld-npp/rtld.c:231-401 | Both passes, stopping exactly for a checked tag repeated or a wrong size; the PLT table goes to the kind DT_PLTREL says. |
| `ElfDynamic.AfterIs` | rtld-npp/rtld.c:239-368 | Taking entries one by one agrees with reading each field by its tag. |
| `ElfDynamic.DigestOrderFree` | rtld-npp/rtld.c:231-401 | Permuting entries of which no tag but those not handled, DT_SONAME and DT_NEEDED repeats, with needed libraries in order, changes no field, no handle and no outcome. |
| `ElfDynamic.StrTabTwice` | rtld-npp/rtld.c:258-265 | A repeated DT_STRTAB is not counted as one, and the last of the two is kept. |
| `ElfDynamic.EachFills` | rtld-npp/rtld.c:239-368 | Every entry of a section whose tags do not repeat fills its own field with its address or size; symbols of another size than 16, or RELA entries of another than 12, stop loading. |
| `ElfDynamic.HashReadBack` | rtld-npp/rtld.c:261-269 | A hash table laid out as the System V ABI has it is read back, bucket by bucket and chain entry by chain entry. |
| `ElfEdits.PatchedEach` | rtld-npp/rtld.c:464-501 | Edits of words that share no byte act each on its own word, and change nothing else. |
| `ElfEdits.PatchedOnce` | rtld-npp/rtld.c:464-501 | That determines the result. |
| `ElfEdits.OrderFree` | rtld-npp/rtld.c:464-501 | So their order does not matter. |
| `ElfReloc.ElfObject.DoRel` | rtld-npp/rtld.c:465-500 | One REL entry by its type; unknown types and missing symbols stop loading. |
| `ElfReloc.ElfObject.DoRela` | rtld-npp/rtld.c:413-439 | One RELA entry, with the fall-through. |
| `ElfReloc.ElfObject.LoadRel` | rtld-npp/rtld.c:464-501 | The loop applies the entries in order, on the bytes of memory. |
| `ElfReloc.ElfObject.LoadRela` | rtld-npp/rtld.c:412-440 | The same for RELA. |
| `ElfReloc.ElfObject.RebasePlt` | rtld-npp/rtld.c:505-509 | Every PLT slot is moved with the object. |
| `ElfReloc.ElfObject.BindPlt` | rtld-npp/rtld.c:511-516 | Every PLT slot whose symbol has an address gets it. |
| `ElfReloc.ElfObject.SetGot` | rtld-npp/rtld.c:518-521 | The second word of the global offset table is the object, the third the entry for first calls. |
| `ElfReloc.ElfObject.DlReloc` | rtld-npp/rtld.c:403-524 | All of these in order; done exactly if no entry stops it. |
| `ElfReloc.ElfObject.RtldFixup` | rtld-npp/rtld.c:92-118 | Stores and returns the symbol address of the entry at the given table offset; a fixup, if there is one for the name. |
| `ElfReloc.FixupFirst` | rtld-npp/rtld.c:185-188 | A reference by a name with a fixup stands for that fixup. |
| `ElfReloc.StopsExactly` | rtld-npp/rtld.c:412-516 | Loading stops exactly for a REL type not known, a symbol needed and not found, and a PLT symbol the lookup asserts about. |
| `ElfRelocTheorems.RelocationOrderFree` | rtld-npp/rtld.c:464-501 | The order of a REL table whose entries change no common byte does not matter to the loop. |
| `ElfRelocTheorems.EntryMatchesAbi` | rtld-npp/rtld.c:465-500 | What one entry computes is what the i386 ABI has for its type. |
| `ElfRelocTheorems.EditMoves` | rtld-npp/rtld.c:465-500 | At another load address it computes a word moved by the difference exactly if it is RELATIVE or its symbol is the object's own. |
| `ElfRelocTheorems.Abs64LosesAddend` | rtld-npp/rtld.c:417-428 | A 64-bit absolute entry stores S+A if and only if A is 0. |
| `ElfLazy.LazyRefinesEager` | rtld-npp/rtld.c:92-118 | After rebasing and any sequence of first calls each slot holds its stub or the eager value, by whether it was called, all else as before; once all are called, the image is the eager one. |
| `ElfLazy.EagerIsStable` | rtld-npp/rtld.c:505-516 | After eager binding, calls change nothing. |
| `ElfLazy.AddendLost` | rtld-npp/rtld.c:443-458 | With addends the two ways agree on a slot if and only if its addend is 0. |
| `ElfLazy.FixupsBind` | rtld-npp/rtld.c:92-118 | Calls bind exactly the slots called, from any mixture of bound and unbound ones. |
| `ElfLazy.EagerSlots` | rtld-npp/rtld.c:505-516 | The two loops leave every slot with an address bound and the others with their moved stubs. |
| `ElfLoad.LoadIsFlat` | rtld-npp/rtld.c:403-524 | If no two entries of any table change the same byte, the whole of elf_dlreloc does to each word what the one edit of its entry says. |
| `ElfLoad.LoadedMatchesAbi` | rtld-npp/rtld.c:403-524 | Then after loading each REL word is as the i386 ABI has it (RELATIVE A+B, 32 A+S, GLOB_DAT S), each PLT slot of either table is bound or its moved stub, the two GOT words are set, and every other byte is as before. |
| `ElfLoad.EveryEntry` | rtld-npp/rtld.c:403-524 | Those are all the entries of both relocation tables, both PLT tables, and two words of the global offset table. |
| `ElfLoad.LoadedFixups` | rtld-npp/rtld.c:403-524 | After loading, the word of every entry whose name has a fixup is that address, with the word before or the addend added where its type says so. |
| `ElfLoad.LoadedGot` | rtld-npp/rtld.c:518-521 | The second word of the global offset table is then the object, the third the entry for first calls. |
| `ElfLoad.CallAfterLoad` | rtld-npp/rtld.c:92-118 | A first call through any slot of a loaded object, whose entries are without addends, stores what is there already. |
| `ElfLoad.LoadIsStable` | rtld-npp/rtld.c:403-524 | So after loading any sequence of first calls changes nothing. |
| `ElfLoad.TwoBases` | rtld-npp/rtld.c:403-524 | Loading at two addresses, the loaded images differ by the difference of the addresses in exactly the words that depend on it: RELATIVE ones, those of the object's own symbols, and PLT slots of own or missing symbols. |
| `ElfLoad.LoadOrderFree` | rtld-npp/rtld.c:464-501 | Permuting a REL table whose entries change no common byte changes neither the loaded image nor whether loading stops, whatever the other tables hold. |
| `AttributeLists.NextItem` | npprunner/netscape.cpp:420-427 | The equals sign, the name before it and the value behind it of the next attribute. |
| `AttributeLists.ParseArgument` | npprunner/netscape.cpp:410-451 | The fixed entry and the attributes in order, at most 100 entries, first and last character of a quoted value dropped, and the value of the last SRC or src. |
| `AttributeLists.QuoteOverruns` | npprunner/netscape.cpp:410-451 | For a=' the length copied is negative. |
| `AttributeLists.PrintedItems` | npprunner/netscape.cpp:419-447 | Either way of going on reads a printed list back, up to its limit. |
| `AttributeLists.PrintedArguments` | npprunner/netscape.cpp:410-451 | For a well-formed list that fits, all names and all values without quotes. |
| `AttributeLists.PrintedAddress` | npprunner/netscape.cpp:410-451 | And the address of such a list is the value of its last attribute named src or SRC. |
| `AttributeLists.ParseVarList` | nswinviewr/netscape.cpp:512-541 | Pointers into the buffer, cut apart by zeros, to exactly the names and values of the attributes. |
| `AttributeLists.PrintedVarList` | nswinviewr/netscape.cpp:512-541 | For a well-formed list within the count, all names, and all values with their quotes. |

## Left out

- User interface, windows, resource files, NPAPI tables and their forwarding, `plugin-wrap`, audio and video shims.
- Real sockets, DNS, `mmap`, `dlopen`, process creation: their answers are nondeterministic or parameters.
- HttpText.ParseContentLength: a number beyond 31 bits is taken as the largest one, as `atoi` gives with a 32-bit `long`; the language leaves it open.
- Streams.Network.Run: no event is assumed to come, so nothing is said to happen in the end.
- Streams.NetStream.Pump: `writeready` gives no negative number.
- Streams.NetStream.Delete: the asserted success of `destroystream` is not modelled.
- Streams.NetStream.OpenStream: the stream type the plugin may set is not looked at, as in the source.
- Streams.Launch: where a path has no end the request text is any bytes; the 8192 bytes the text is composed in, and the address looked up for the host, are not modelled.
- Streams.RedirectUrlNotify: the same.
- The thread-safety of `_beginthread` and the content of player command lines; `play_video` and `player_cleanup` run on one thread, and one lifetime is followed.
- RpcDispatch.Channel.Call: the plugin functions behind a call number are one handler that may pop, push or abort.
- Rpc.RpcCall.Pop32: stands for all 32-bit pops; 8-bit pops and byte-string pops are not modelled.
- RpcDispatch.Channel.Answer: for a length word below 12 the wrapped length lets the handler read behind the buffer too; its input is taken to end with the buffer.
- ElfImage.LoadSegment: contents of memory only; which pages are left readable and writable is not modelled, only that the last `mprotect` may fail.
- ElfImage.DlMmap: the same, for headers that keep the stated order; file pages beyond the end of the file read as zero.
- ElfReloc.ElfObject.DoRela: words have 32 bits, where RELA objects of x86-64 have 64.
- ElfReloc.ElfObject.LoadRela: the same.
- ElfRelocTheorems.Abs64LosesAddend: stated for words of 32 bits.
- ElfReloc.ElfObject.DlReloc: symbol, string and relocation tables are values beside the memory image, so relocations that overwrite them are not covered; TLS relocations and init and fini calls do nothing.
- ElfLoad.TwoBases: for load addresses at which no own symbol lands on address 0, where a lookup would read as not found.
- ElfDynamic.ObjEntry.SecondPass: `dlopen_wrap` is one function of the name's address; its second try without the version suffix is inside it.
- ElfSymbols.DlSym: needs chains that end; `ElfSymbols.EndsOrNever` says the bound on their length loses none.
- The table-of-signals and system-call translations of `rtld-npp/linux.c` and `rtld-npp/rtld_fixup.c`.
- DesWide.WideIsFips: the Triple-DES key setup and the CBC loops are given in 32-bit words only; they copy subkey words and bytes.
- Cbc.CbcEncrypt: the length of the buffers is given in bytes as in the source, and a last partial block reads and writes a whole one; buffers that overlap in part are not covered.
- DupText.DupText: for any 24 key bytes, since the source leaves them to be filled in; debug output is left out.
- AttributeLists.ParseArgument: a repeated call's reuse of the static arrays is not modelled.
