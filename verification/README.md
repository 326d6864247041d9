# Verification of openNetVM's examples and linter

A Dafny model, with proofs, of the parts of openNetVM whose correctness is not obvious from reading
one function:

- **AES** (`examples/aes_encrypt/aes.c`): the block cipher of sections 5.1 to 5.3 of FIPS 197, CBC and
  CTR of sections 6.2 and 6.5 of NIST SP 800-38A, and the CCM of the source. `AesField`, `AesTables`,
  `AesLookup`, `AesState`, `IteratedCipher`, `AesCipher`, `AesKeySchedule`, `ByteStrings`,
  `BlockModes`, `AesModes`, `CcmFormat`, `AesCcm`. What they compute is compared with definitions on
  bytes in `AesSubstitution` (the S-box), `Fips197` (cipher and key expansion) and `CcmBytes`.
- **The asynchronous reader** (`examples/aio_aclread/aio_aclread.c`, with its own ring and without
  `USE_RTE_RING`): rings with watermarks, the wait queue, the buffer pool, and the NF thread against
  I/O completions. `WaitRing`, `AioSystem` (a transition system), `AioInvariant` (what holds in every
  reachable state), `AioReader` (the code as a class, each method of which is a run of the system),
  `AioSteps`, `AioCalls` (what a call of the callback submits), `AioLosses` (which buffers and packets
  are lost for good).
- **The linter** (`style/gwclint.py`): the bracket scanners and the checkpoint stack of preprocessor
  conditionals. `Brackets` (plain matching), `BracketScan` (the code), `BracketMatching` (the code finds
  plain matches), `PreprocessorLines` (on values), `NestingState` (with block objects and deep copies),
  `LineEffects` (what a line of code does to the stack).
- **The OpenFlow switch side** (`examples/flow_table`): `MsgBuf`, `Framing`, `OpenFlow` (the messages),
  `OpenFlowBytes` (their bytes), `SdnBuffering` (a transition system), `PktList` and `PktTable` (the
  linked lists), `Datapath`, `FlowHistory` (the lists, told from what came in).
- **The rule installer** (`examples/flow_rule_installer/flow_rule_installer.c`): `FlowRules`,
  `FlowTurns` (which rule gets which chain).

`Sequences`, `Options`, `Characters` and `Arithmetic` are shared by several of these.

`dafny verify dfyconfig.toml` checks everything.

## How the model relates to the source

Code that overwrites arrays, fields or lists is a method over arrays or a class with those fields; its
contract ties the new state to a function of the old one, and the properties are lemmas about that
function. Where several threads or calls interleave, the calls are proved to be runs of a transition
system and the properties hold in each of its reachable states.

These are parameters: the result of `malloc` and `rte_calloc` and of insertions into hash tables, what
a socket gives or takes, the flow of a packet (a finite map that does not change during a run), the
moments at which I/O completes and whether a request for it is accepted, the number of buffers and of
chains, and what the patterns of the linter find in a line of C++.

Where the source and its comments disagree, the code is what is modelled:

- `aes_encrypt` and `aes_decrypt` accept any key size; they agree on the number of rounds only for 128
  and from 192 on (`AesCipher.RoundTripsExactly`).
- CCM is not that of NIST SP 800-38C. For a MAC of 16 bytes the payload counter is not incremented
  (aes.c:453), aligned associated data gets an extra block of zeros (aes.c:564), empty associated data
  still takes a length block (aes.c:555-567), and sixteen bits of the payload length are stored
  (aes.c:551-552). The round trip holds nevertheless for every payload but the empty one, which
  `aes_encrypt_ccm` accepts and `aes_decrypt_ccm` refuses (aes.c:475, `AesCcm.ThereAndBack`); unique
  decodability holds up to 65535 bytes and not beyond (`CcmFormat.DecodableExactly`).
- The buffer for CCM is allocated with 48 bytes more than the data, and one more is needed when
  a mod 16 = 14 and p mod 16 = 1 (`CcmFormat.FormattedLengthIs`). The model's buffer has that byte.
- The backward bracket scan from a `>` that is part of `->`, `>=` or `operator>` goes on with nothing to
  match and can report the match of an earlier bracket, as in `(a)->`; duality holds exactly elsewhere
  (`BracketMatching.DualExactly`, `BracketMatching.ArrowEchoes`).
- A packet whose aio_read fails is neither processed nor returned (aio_aclread.c:905-908); it counts as
  lost (`AioInvariant.PacketsConserved`, `AioLosses.LostExactly`).
- Not every buffer of the reader gets back to FREE: the callback keeps one that it finds no packet for
  (aio_aclread.c:1292-1311), and `state = BUF_SUBMITTED` can come after the completion (line 911). These
  are the only two ways (`AioLosses.LeakedExactly`).
- A message whose length field is zero is never consumed and the read loop meets it for ever; it ends
  exactly on the other streams (`Framing.LoopEnds`), for which the parse is defined.
- The stored switch configuration starts with its length in the byte order of the host (sdn.c:78-85),
  here a little-endian one, and `make_config_reply` sends it as it is. The controller can parse what the
  switch sends exactly if it sets the configuration, with the length 12, before it asks for it
  (`Datapath.ControllerReadsReplies`, `Datapath.UnsetConfigIsUnreadable`).
- The rule installer needs two chains for UDP, and a rule whose reverse key does not fit leaves the flow
  table open under reversal for good (`FlowRules.RunKeepsClosed`).

## Model

| member | source | states |
|---|---|---|
| `AesField.InvMixRowUndoesMix` | examples/aes_encrypt/aes.c:884-972 | the polynomial of InvMixColumns times that of MixColumns is one: a row of the inverse matrix over a mixed column gives the column's byte back, for all four bytes |
| `AesField.MixRowUndoesInvMix` | examples/aes_encrypt/aes.c:794-882 | the same with the two matrices exchanged |
| `AesLookup.InvSubByteUndoesSubByte` | examples/aes_encrypt/aes.c:95-131 | `aes_invsbox` undoes `aes_sbox` on every byte |
| `AesLookup.SubByteUndoesInvSubByte` | examples/aes_encrypt/aes.c:95-131 | `aes_sbox` undoes `aes_invsbox` on every byte |
| `AesLookup.TablesHoldFieldProducts` | examples/aes_encrypt/aes.c:139-268 | all six columns of `gf_mul` are the products by 02, 03, 09, 0b, 0d, 0e in GF(2^8) modulo x^8+x^4+x^3+x+1 (section 4.2 of FIPS 197), polynomial multiplication and reduction written out |
| `AesSubstitution.SubByteIsS` | examples/aes_encrypt/aes.c:95-112 | `aes_sbox` is the substitution of section 5.1.1 of FIPS 197: the affine map of the inverse in GF(2^8) |
| `AesSubstitution.InverseIsUnique` | examples/aes_encrypt/aes.c:95-112 | the inverse that this speaks of is unique: a field element has one, and zero counts as its own |
| `AesSubstitution.TimesAdds` | examples/aes_encrypt/aes.c:139-268 | multiplication in GF(2^8), as polynomials with reduction, distributes over addition and commutes with doubling |
| `AesState.MixIsMatrixProduct` | examples/aes_encrypt/aes.c:794-882 | the mixed column, to which `AesState.MixColumns` ties the table lookups, is the matrix product of section 5.1.3 of FIPS 197 |
| `AesState.InvMixIsMatrixProduct` | examples/aes_encrypt/aes.c:884-972 | the inverse-mixed column, to which `AesState.InvMixColumns` ties the table lookups, is the matrix product of section 5.3.3 of FIPS 197 |
| `AesState.MixesAreInverse` | examples/aes_encrypt/aes.c:794-972 | MixColumns and InvMixColumns are mutual inverses on every state |
| `AesState.ShiftsAreInverse` | examples/aes_encrypt/aes.c:735-784 | ShiftRows and InvShiftRows are mutual inverses |
| `AesState.SubstitutionsAreInverse` | examples/aes_encrypt/aes.c:690-728 | SubBytes and InvSubBytes are mutual inverses |
| `AesState.AddKeyUndoesItself` | examples/aes_encrypt/aes.c:641-682 | adding a round key twice changes nothing |
| `AesState.AddRoundKey` | examples/aes_encrypt/aes.c:641-682 | in place: the state becomes its sum with the round key |
| `AesState.SubBytes` | examples/aes_encrypt/aes.c:690-708 | in place: every byte goes through the S-box |
| `AesState.InvSubBytes` | examples/aes_encrypt/aes.c:710-728 | in place: every byte goes through the inverse S-box |
| `AesState.ShiftRows` | examples/aes_encrypt/aes.c:735-758 | in place: row r is rotated left by r |
| `AesState.InvShiftRows` | examples/aes_encrypt/aes.c:761-784 | in place: row r is rotated right by r |
| `AesState.MixColumns` | examples/aes_encrypt/aes.c:794-882 | in place: the table lookups replace every column by its mixed column, although the entries are overwritten one after the other |
| `AesState.InvMixColumns` | examples/aes_encrypt/aes.c:884-972 | in place: the same for the inverse |
| `IteratedCipher.Steps.RoundTrip` | examples/aes_encrypt/aes.c:978-1118 | any cipher of this round structure with invertible steps is undone by the reversed steps in reversed order, in both directions |
| `IteratedCipher.Steps.LastKeyMatters` | examples/aes_encrypt/aes.c:978-1049 | two key lists that differ only in the last key encrypt differently |
| `AesCipher.BlockRoundTrip` | examples/aes_encrypt/aes.c:978-1118 | `aes_decrypt` undoes `aes_encrypt` and the other way round, for every block and every array of round keys, also one that no key setup made |
| `AesCipher.RoundTripsExactly` | examples/aes_encrypt/aes.c:978-1118 | the round trip holds for all blocks and schedules if and only if the key size is 128 or at least 192: for the others the two functions disagree about the number of rounds |
| `AesCipher.AesEncrypt` | examples/aes_encrypt/aes.c:978-1049 | the loops over state and output array compute the cipher on values, which `Fips197.EncryptIsCipher` pins byte by byte |
| `AesCipher.AesDecrypt` | examples/aes_encrypt/aes.c:1051-1118 | the same for the inverse cipher, which `Fips197.DecryptUndoesCipher` pins |
| `Fips197.EncryptIsCipher` | examples/aes_encrypt/aes.c:978-1049 | what `aes_encrypt` computes is the cipher of section 5.1 of FIPS 197 written on bytes, with 10 rounds for 128 bits, 12 for 192 and 14 otherwise: a byte of a full round is the sum of 02 and 03 times and 01 and 01 times the substituted bytes at the places that ShiftRows takes them from, plus the byte of the key; the last round has no products |
| `Fips197.DecryptUndoesCipher` | examples/aes_encrypt/aes.c:1051-1118 | for every block and all words, `aes_decrypt` undoes that cipher, with 10 rounds for up to 128 bits, 12 for up to 192 and 14 otherwise, in both directions |
| `Fips197.FullRoundIs` | examples/aes_encrypt/aes.c:1007-1015 | SubBytes, ShiftRows, MixColumns and AddRoundKey on the state are the byte equation of a full round |
| `Fips197.LastRoundIs` | examples/aes_encrypt/aes.c:1016-1030 | the same for the last round, without MixColumns |
| `AesKeySchedule.RotWordBytes` | examples/aes_encrypt/aes.c:67 | the two shifts rotate the bytes of a word by one place |
| `AesKeySchedule.SubWordBytes` | examples/aes_encrypt/aes.c:590-599 | `SubWord` applies the S-box to each byte of a word |
| `AesKeySchedule.RconIsPowerOfX` | examples/aes_encrypt/aes.c:607-609 | the round constants are the powers of x in GF(2^8) |
| `AesKeySchedule.ExpandKey` | examples/aes_encrypt/aes.c:617-631 | the expansion loop fills exactly the words it should, each by the recurrence of section 5.2 of FIPS 197, in bytes in `Fips197.ExpandedByte` |
| `AesKeySchedule.AesKeySetup` | examples/aes_encrypt/aes.c:604-631 | for 128, 192 and 256 bits the words are the schedule of the key, which `Fips197.ScheduleIsExpansion` pins byte by byte, and the rest of `w` is untouched; for any other size nothing is written |
| `Fips197.ScheduleIsExpansion` | examples/aes_encrypt/aes.c:604-631 | the schedule of a key is the key expansion of section 5.2 of FIPS 197 on bytes: the key first, then each word the one Nk before plus the one before, rotated, substituted and with x^(i/Nk-1) on its first byte if i mod Nk = 0, only substituted if Nk = 8 and i mod 8 = 4 |
| `Fips197.ExpandedByte` | examples/aes_encrypt/aes.c:622-630 | the same for one byte of one word, for any words that follow the recurrence of the source |
| `AesKeySchedule.FirstWordsRecovered` | examples/aes_encrypt/aes.c:604-631 | running the recurrence backwards from any window of Nk words gives the key words back |
| `AesKeySchedule.WindowDeterminesSchedule` | examples/aes_encrypt/aes.c:604-631 | equal windows of Nk words at the same place mean equal schedules and equal keys |
| `AesKeySchedule.ScheduleIsUnique` | examples/aes_encrypt/aes.c:604-631 | a key has exactly one schedule |
| `ByteStrings.AddBytesUndoesItself` | examples/aes_encrypt/aes.c:272-278 | adding the same bytes twice changes nothing |
| `ByteStrings.XorBuf` | examples/aes_encrypt/aes.c:272-278 | the loop adds `n` bytes, also onto the first buffer itself, and touches no others |
| `BlockModes.CbcEquation` | examples/aes_encrypt/aes.c:283-304 | each ciphertext block is the encryption of the plaintext block plus the ciphertext block before (section 6.2 of NIST SP 800-38A) |
| `BlockModes.CbcRoundTrip` | examples/aes_encrypt/aes.c:283-352 | CBC decryption undoes CBC encryption for any whole number of blocks |
| `BlockModes.CbcInverseEquation` | examples/aes_encrypt/aes.c:331-352 | each decrypted block is the decryption of the ciphertext block plus the ciphertext block before, the IV before the first |
| `BlockModes.MacIsLastBlock` | examples/aes_encrypt/aes.c:306-329 | the CBC-MAC is the last block of the CBC encryption |
| `BlockModes.CtrUndoesItself` | examples/aes_encrypt/aes.c:371-398 | CTR is its own inverse for any length |
| `BlockModes.CounterStep` | examples/aes_encrypt/aes.c:357-367 | one increment of the block takes counter n to counter n+1 modulo 2^128 |
| `BlockModes.CarryStops` | examples/aes_encrypt/aes.c:357-367 | incrementing the byte where the carry stops adds one to the big-endian number |
| `AesModes.IncrementIv` | examples/aes_encrypt/aes.c:357-367 | big-endian +1 modulo 256^counter_size on the last bytes; the others, and everything for a size of zero or less, are unchanged |
| `AesModes.AesEncryptCtr` | examples/aes_encrypt/aes.c:371-392 | in place or not, for any length: byte i is in[i] plus byte i mod 16 of the encryption of iv + i/16 mod 2^128; nothing else is written |
| `AesModes.AesDecryptCtr` | examples/aes_encrypt/aes.c:394-398 | the same |
| `AesModes.AesEncryptCbc` | examples/aes_encrypt/aes.c:283-304 | in place or not: CBC encryption; a length that is not a multiple of 16 is refused and changes nothing |
| `AesModes.AesEncryptCbcMac` | examples/aes_encrypt/aes.c:306-329 | the MAC of a whole number of blocks; refusal otherwise |
| `AesModes.AesDecryptCbc` | examples/aes_encrypt/aes.c:331-352 | in place or not: CBC decryption; refusal otherwise |
| `AesModes.AesCbcRoundTrip` | examples/aes_encrypt/aes.c:283-352 | the two CBC functions of the API are inverses for every key size for which the block cipher is |
| `CcmFormat.FormattedLengthIs` | examples/aes_encrypt/aes.c:542-580 | the formatted buffer is a whole number of blocks of the stated length, at most a+p+49, and longer than the a+p+48 allocated exactly when a mod 16 = 14 and p mod 16 = 1 |
| `CcmFormat.DecodeFormatted` | examples/aes_encrypt/aes.c:542-580 | nonce, MAC length, associated data and payload can be read back from the formatted buffer |
| `CcmFormat.PrefixFree` | examples/aes_encrypt/aes.c:542-580 | no formatted buffer is a prefix of the buffer of another message |
| `CcmFormat.DecodableExactly` | examples/aes_encrypt/aes.c:551-552 | payloads below a limit are told apart if and only if the limit is at most 65536, because sixteen bits of the length are stored |
| `CcmFormat.LongPayloadExtendsEmpty` | examples/aes_encrypt/aes.c:551-552 | the witness: the buffer of the empty payload is a prefix of that of 65536 zero bytes |
| `CcmBytes.FormattedBytes` | examples/aes_encrypt/aes.c:542-580 | the formatted buffer written out: flags, nonce, zeros and sixteen bits of the payload length; sixteen bits of the length of the associated data, the data and 1 to 16 zeros; the payload and 0 to 15 zeros |
| `CcmBytes.FlagsAre` | examples/aes_encrypt/aes.c:545-549 | the bits of the flags: 14 minus the length of the nonce, (macLen - 2) / 2, and 0x40 exactly if there is associated data |
| `CcmBytes.CounterBlockBytes` | examples/aes_encrypt/aes.c:535-540 | the first counter block: 14 minus the length of the nonce, the nonce, zeros |
| `AesCcm.PayloadCounterIs` | examples/aes_encrypt/aes.c:451-454 | the payload counter is counter 1, but counter 0 for a MAC of 16 bytes |
| `CcmBytes.CiphertextBytes` | examples/aes_encrypt/aes.c:404-463 | byte i of the payload is encrypted under counter 1 + i/16, from counter 0 for a MAC of 16 bytes; byte j behind it is byte j of the last block of the CBC encryption of the formatted buffer under a zero IV, encrypted under counter 0 |
| `CcmBytes.PlaintextBytes` | examples/aes_encrypt/aes.c:467-532 | the same for decryption of any ciphertext, and it is authentic if and only if every byte of the MAC is that of the CBC encryption of what came out |
| `AesCcm.CcmRoundTrip` | examples/aes_encrypt/aes.c:404-532 | on values: decryption of an encryption restores the payload and finds it authentic, for every block function, nonce, associated data, payload and MAC length up to 16 |
| `AesCcm.ThereAndBack` | examples/aes_encrypt/aes.c:404-532 | the two functions of the API, one after the other, for 128, 192 and 256 bits and every legal input: `aes_decrypt_ccm` accepts what `aes_encrypt_ccm` made if and only if the payload is not empty, and then gives the payload back and finds it authentic |
| `AesCcm.PrepareFirstCtrBlk` | examples/aes_encrypt/aes.c:535-540 | the first counter block |
| `AesCcm.PrepareFirstFormatBlk` | examples/aes_encrypt/aes.c:542-553 | the first formatted block, with sixteen bits of the payload length |
| `AesCcm.FormatAssocData` | examples/aes_encrypt/aes.c:555-567 | length, data and a padding that is never empty |
| `AesCcm.FormatPayloadData` | examples/aes_encrypt/aes.c:569-580 | data and padding to the next block |
| `AesCcm.AesEncryptCcm` | examples/aes_encrypt/aes.c:404-463 | refusals exactly as listed, without a write; otherwise the CCM ciphertext, given byte by byte in `CcmBytes.CiphertextBytes`, under the words that the key setup left, for any key size, and no byte behind it touched |
| `AesCcm.AesDecryptCcm` | examples/aes_encrypt/aes.c:467-532 | succeeds exactly for a ciphertext longer than its MAC if memory can be had; the payload, given byte by byte in `CcmBytes.PlaintextBytes`, erased if the check is asked for and fails; `mac_auth` tells whether the MAC is right; for any key size |
| `WaitRing.AddedIs` | examples/aio_aclread/aio_aclread.c:680-750 | a packet is refused exactly when 2047 wait, otherwise it goes to the end; the mark comes exactly with the 1638th packet of an unmarked flow, and the mark in the full branch never |
| `WaitRing.RemovedIs` | examples/aio_aclread/aio_aclread.c:751-803 | the oldest packet leaves; the mark is cleared exactly when 1024 are left |
| `WaitRing.QueueAddKeepsValid` | examples/aio_aclread/aio_aclread.c:680-750 | the count of waiting flows stays the number of non-empty rings |
| `WaitRing.QueueRemoveKeepsValid` | examples/aio_aclread/aio_aclread.c:751-803 | the same for removal |
| `WaitRing.WaitingIffCounted` | examples/aio_aclread/aio_aclread.c:804-839 | the count is zero if and only if the scan over the flows finds none |
| `AioInvariant.StepKeepsInv` | examples/aio_aclread/aio_aclread.c:841-1316 | every step of the NF thread, a failing aio_read among them, and every completion, in any interleaving, keeps the whole invariant: buffers, conservation, order of arrival, order per flow, alternation of marks |
| `AioInvariant.ReachableInv` | examples/aio_aclread/aio_aclread.c:841-1316 | so every reachable state has it, for a pool of any size |
| `AioInvariant.AcceptedInOrder` | examples/aio_aclread/aio_aclread.c:1115-1205 | between calls, the packets that came are an interleaving of the accepted and the dropped ones: each in order of arrival |
| `AioInvariant.PerFlowFifo` | examples/aio_aclread/aio_aclread.c:1115-1205 | for each flow, the accepted packets are those submitted to I/O and then those in its ring, and with the dropped ones they interleave to the packets of the flow in order of arrival; a flow without drops is submitted exactly as it came |
| `AioInvariant.PacketsConserved` | examples/aio_aclread/aio_aclread.c:884-1019 | between calls, every packet that came is in exactly one place: ring, buffer, returned, dropped, or lost to an aio_read that failed |
| `AioInvariant.DropsOnlyWhenFull` | examples/aio_aclread/aio_aclread.c:1137-1204 | a packet is dropped only after a scan that found no free buffer, with 2047 packets of its flow waiting |
| `AioInvariant.ChooseNeverDrops` | examples/aio_aclread/aio_aclread.c:1137-1204 | the second drop branch, behind the swap with the head of the ring, is never taken |
| `AioInvariant.Backpressure` | examples/aio_aclread/aio_aclread.c:680-803 | count = (w_h - r_h) mod 2048 <= 2047, a marked flow has more than 1024, an unmarked one fewer than 1638, marks and clears strictly alternate, and the wait count is right |
| `AioLosses.LeakedByStep` | examples/aio_aclread/aio_aclread.c:841-1316 | a buffer is not FREE with nothing left to free it after a step if and only if it was so before, or the step is the choice of a callback that finds no packet, or the late `state = BUF_SUBMITTED` of a request that has completed |
| `AioLosses.LeakedExactly` | examples/aio_aclread/aio_aclread.c:841-1316 | so in every run from the start a buffer is lost, for ever, if and only if one of the steps is of these two kinds |
| `AioLosses.IdleCallbackLeaks` | examples/aio_aclread/aio_aclread.c:1282-1316 | the witness: a call of the callback with nothing waiting loses the first buffer, if that is free |
| `AioLosses.LostExactly` | examples/aio_aclread/aio_aclread.c:904-909 | in every run from the start, as many packets are lost as aio_read has refused requests |
| `AioInvariant.RunKeepsInv` | examples/aio_aclread/aio_aclread.c:1115-1316 | what a run leads to from a state with the invariant has it too, so the results above hold for the class, whose calls below are runs |
| `AioCalls.CallbackServes` | examples/aio_aclread/aio_aclread.c:1282-1316 | the same in every run of the system: what is submitted in a call of the callback and what is left in the rings is what waited, in order, and without a completion or a refused request in between the packets submitted are exactly as many as the smaller of the free buffers and the waiting packets |
| `AioCalls.FirstIsTaken` | examples/aio_aclread/aio_aclread.c:804-839 | the head of the first flow that waits is the first of all waiting packets, and the others stay in order |
| `AioReader.Reader.constructor` | examples/aio_aclread/aio_aclread.c:508-516 | the initial state of the transition system |
| `AioReader.Reader.AddFlowPkt` | examples/aio_aclread/aio_aclread.c:680-750 | field by field, the code does what the transition system says of an addition |
| `AioReader.Reader.GetNextPkt` | examples/aio_aclread/aio_aclread.c:751-803 | the same for a removal |
| `AioReader.Reader.IsFlowPktWaiting` | examples/aio_aclread/aio_aclread.c:669-679 | comparing the two heads of a valid ring tells whether packets of the flow wait |
| `AioReader.Reader.GetFirstPkt` | examples/aio_aclread/aio_aclread.c:804-839 | the head of the first flow that waits |
| `AioReader.Reader.GetAioBuffer` | examples/aio_aclread/aio_aclread.c:841-876 | the scan of the pool, with completions anywhere in between, is a run of the system; the buffer was free at the start or a completion during the scan freed it, and if there is none, no buffer was free at the start and any that is free now was freed during the scan |
| `AioReader.Reader.ReadAioBuffer` | examples/aio_aclread/aio_aclread.c:884-937 | an accepted request and the later `state = BUF_SUBMITTED` are two steps of the system, with completions in between; a failing request is one step that clears the buffer and loses its packet; the packet of the buffer, and no other, is added to those submitted |
| `AioReader.Reader.NotifyIoRwDone` | examples/aio_aclread/aio_aclread.c:978-1019 | a completion is one step: the packet goes back, the buffer is free, and the callback is woken if and only if packets of some flow wait |
| `AioReader.Reader.PacketProcessIo` | examples/aio_aclread/aio_aclread.c:1115-1205 | every call is a run of the system from idle to idle that begins with the packet; if a buffer is free at the start, the packet joins its ring at the end and the first of the ring is submitted; if none is and none becomes free, nothing is submitted and the packet waits, or is dropped if 2047 wait |
| `AioReader.Reader.PacketHandler` | examples/aio_aclread/aio_aclread.c:1253-1279 | the same run for the handler, with its return codes; none for a packet that needs no I/O |
| `AioReader.Reader.ExplicitCallback` | examples/aio_aclread/aio_aclread.c:1282-1316 | every call is a run of the system from idle to idle; it returns 1 only if nothing waits any more, and 0 only at the end of a scan after which every free buffer is one that a completion freed during that scan; the packets submitted are the first of those that waited, ring by ring, at least as many as there are free buffers or waiting packets, and at most as many as there are free buffers and buffers that become free |
| `Brackets.BalancedBothWays` | style/gwclint.py:1386-1620 | text is balanced read forwards if and only if it is read backwards |
| `Brackets.ForwardIsMatch` | style/gwclint.py:1386-1461 | a plain forward scan ends at e if and only if e closes the bracket |
| `Brackets.BackwardIsMatch` | style/gwclint.py:1508-1582 | a plain backward scan ends at s if and only if s opens the bracket |
| `Brackets.ScansAreDual` | style/gwclint.py:1386-1582 | so the two plain scans are dual |
| `BracketScan.FindEndOfExpressionInLine` | style/gwclint.py:1386-1461 | the loop with its mutated stack computes the scan step by step, look-behinds included |
| `BracketScan.FindStartOfExpressionInLine` | style/gwclint.py:1508-1582 | the same backwards, with the characters that it jumps over |
| `BracketScan.CloseExpression` | style/gwclint.py:1464-1505 | the loop over the lines, with its failure value |
| `BracketScan.ReverseCloseExpression` | style/gwclint.py:1585-1620 | the same backwards |
| `BracketScan.GetTextInside` | style/gwclint.py:4679-4732 | the text up to the plain match, or nothing |
| `BracketMatching.EndInLineIsPlain` | style/gwclint.py:1386-1461 | with its tentative angle brackets taken away, the scan from a bracket is the plain scan, whatever `<`, `>`, `;` and operators there are |
| `BracketMatching.StartInLineIsPlain` | style/gwclint.py:1508-1582 | the same backwards |
| `BracketMatching.JumpsOverNoBracket` | style/gwclint.py:1530-1545 | a character that the backward scan jumps over is never a bracket, by the regular expressions of the look-behinds |
| `BracketMatching.CloseIsPlainMatch` | style/gwclint.py:1464-1505 | from `(`, `[` or `{`, CloseExpression gives the plain typed match over the concatenated lines, or fails if there is none |
| `BracketMatching.ReverseCloseIsPlainMatch` | style/gwclint.py:1585-1620 | the same for ReverseCloseExpression from a closing bracket |
| `BracketMatching.Duality` | style/gwclint.py:1464-1620 | CloseExpression ends just past a closing bracket if and only if ReverseCloseExpression from there gives the start, across any number of lines |
| `BracketMatching.DualExactly` | style/gwclint.py:1464-1620 | at an arbitrary position duality holds if and only if no `>` there lets the scan go on to a closing bracket of its line that has a plain match |
| `BracketMatching.ArrowEchoes` | style/gwclint.py:1530-1545 | the witness: in `(a)->` the scan from the `>` reports the parenthesis, which CloseExpression closes elsewhere |
| `BracketMatching.ReverseFromAngle` | style/gwclint.py:1530-1540 | where a backward scan from `>` can end |
| `BracketMatching.InsideIsClosed` | style/gwclint.py:4679-4732 | `_GetTextInside` gives the text up to where CloseExpression ends, over any number of lines |
| `BracketMatching.InsideIsClosedOnOneText` | style/gwclint.py:4679-4732 | the same on one text, both ways |
| `PreprocessorLines.StepOnLive` | style/gwclint.py:2317-2371 | one line, of any kind and in any state, changes the stack of the first branches by its effect or not at all |
| `PreprocessorLines.RunOnLive` | style/gwclint.py:2317-2371 | so does any run over any lines, well nested or not |
| `PreprocessorLines.OnlyFirstBranchesCount` | style/gwclint.py:2317-2371 | for well-nested lines with arbitrary effects, from any state: the stack is that of a run on the first branches with no preprocessor, and `pp_stack` is as before |
| `PreprocessorLines.FirstBranchOfTwo` | style/gwclint.py:2328-2335 | of a conditional with two branches exactly its first and last line and the first branch are kept |
| `PreprocessorLines.ClassifyIs` | style/gwclint.py:2338-2357 | which lines are which directives, in characters: blanks, `#`, blanks, one of `if`, `ifdef` and `ifndef`, or `else` and `elif`, or `endif`, and then the end of the line or a character that is in no word |
| `PreprocessorLines.BranchesStartAlike` | style/gwclint.py:2342-2356 | at every `#else` and `#elif` of a conditional, whatever the lines before it did, the stack is again that of its `#if` |
| `NestingState.DeepCopy` | style/gwclint.py:2338-2357 | new block objects, none twice, with the values of the old |
| `NestingState.PreprocessorInfo.SaveBranch` | style/gwclint.py:2345-2351 | the stack at the first `#else` or `#elif` is kept in blocks of its own |
| `NestingState.NestingState.BeginConditional` | style/gwclint.py:2338-2341 | `#if` on objects does what it does on values |
| `NestingState.NestingState.BeginBranch` | style/gwclint.py:2342-2356 | `#else` and `#elif` on objects do what they do on values |
| `NestingState.NestingState.EndConditional` | style/gwclint.py:2357-2371 | `#endif` on objects, with its shallow copy, does what it does on values |
| `NestingState.NestingState.UpdatePreprocessor` | style/gwclint.py:2317-2371 | the whole function on block objects refines the step on values for the directive that `PreprocessorLines.ClassifyIs` finds in the characters of the line, keeps stack and checkpoints apart, and brings no object in but those that were there and new ones |
| `NestingState.NestingState.CountInPlace` | style/gwclint.py:2398-2419 | parentheses counted in place in the innermost block show in the stack and in no checkpoint |
| `NestingState.NestingState.MarkOpenBrace` | style/gwclint.py:2507-2512 | the opening brace, set in place, shows in the stack and in no checkpoint |
| `NestingState.NestingState.SetAccessInPlace` | style/gwclint.py:2473-2481 | the access, set in place, shows in the stack and in no checkpoint |
| `NestingState.NestingState.Push` | style/gwclint.py:2516 | a new block on the stack, checkpoints unchanged |
| `NestingState.NestingState.Drop` | style/gwclint.py:2528-2535 | the innermost block off the stack, checkpoints unchanged |
| `NestingState.NestingState.FinishLine` | style/gwclint.py:2473-2535 | access and braces, semicolons and parentheses of a line, consumed in place, do what they do on values |
| `NestingState.NestingState.Update` | style/gwclint.py:2374-2535 | a whole line on block objects, given what the patterns find in it, is one step on values |
| `NestingState.NestingState.UpdateAll` | style/gwclint.py:2317-2535 | any lines on block objects are the run on values; if they are well nested, the stack is that of the first branches alone and the checkpoints are as before |
| `LineEffects.ParenthesesAre` | style/gwclint.py:2398-2419 | what the parentheses of a line do to the innermost block, by how often each occurs in the line, and when an assembly block begins and ends |
| `LineEffects.TokensAre` | style/gwclint.py:2494-2535 | what each token does: an opening brace completes the head of a block or begins one, a semicolon or parenthesis ends a head without its brace, a closing brace ends a block |
| `LineEffects.BracesRestore` | style/gwclint.py:2494-2535 | matched braces, with any semicolons and parentheses among them, leave the stack as it was |
| `LineEffects.ClassWithBody` | style/gwclint.py:2430-2535 | a line that declares a class and opens its body leaves the class on the stack, complete, with the access of the line |
| `LineEffects.ClassAnnounced` | style/gwclint.py:2430-2535 | a line that only announces a class leaves nothing of it |
| `MsgBuf.MsgBuf.constructor` | examples/flow_table/msgbuf.c:55-66 | an empty queue |
| `MsgBuf.MsgBuf.Grow` | examples/flow_table/msgbuf.c:136-145 | twice the room, the same contents |
| `MsgBuf.MsgBuf.Read` | examples/flow_table/msgbuf.c:68-76 | what the socket gives is appended, in order; there is always room left afterwards |
| `MsgBuf.MsgBuf.Write` | examples/flow_table/msgbuf.c:95-111 | what the socket takes is the front of the queue and leaves it; too large a request is refused |
| `MsgBuf.MsgBuf.Peek` | examples/flow_table/msgbuf.c:147-152 | the front of the queue, or nothing |
| `MsgBuf.MsgBuf.Pull` | examples/flow_table/msgbuf.c:154-165 | the front of the queue, at most what is there, leaves it |
| `MsgBuf.MsgBuf.Push` | examples/flow_table/msgbuf.c:167-173 | appends, growing as often as needed |
| `MsgBuf.MsgBuf.Clear` | examples/flow_table/msgbuf.c:131-134 | empties the queue |
| `Framing.ParseGoesOn` | examples/flow_table/sdn.c:153-158 | parsing goes on from the unparsed tail as if everything had come at once |
| `Framing.ChunksDoNotMatter` | examples/flow_table/sdn.c:131-158 | however a stream is cut into reads, the messages handled are those of the whole stream and the buffer holds exactly its unparsed tail |
| `Framing.ParseUndoesSend` | examples/flow_table/sdn.c:153-158 | messages sent back to back are parsed into themselves |
| `Framing.ParseIsExact` | examples/flow_table/sdn.c:153-158 | messages that may have a wrong length field, but are longer than a header then, are parsed into themselves if and only if all lengths are right |
| `Framing.LoopEnds` | examples/flow_table/sdn.c:153-158 | the read loop ends if and only if it meets no message of length zero, and then leaves exactly the unparsed tail |
| `Framing.ZeroLengthNeverEnds` | examples/flow_table/sdn.c:153-158 | the witness: a HELLO of length zero is there after any number of passes |
| `OpenFlow.ReplyIsPaired` | examples/flow_table/sdn.c:166-214 | exactly one answer to each request, of the right type and with its transaction id, and none to anything else; its length field is right unless it is the stored configuration with another length |
| `OpenFlow.FeaturesReply` | examples/flow_table/sdn.c:341-372 | 224 bytes, of their own length, with the transaction id and the id of the switch in network byte order |
| `OpenFlow.DescReply` | examples/flow_table/sdn.c:374-397 | 1068 bytes, of their own length, with transaction id and kind of the request |
| `OpenFlow.ConfigReply` | examples/flow_table/sdn.c:330-339 | type and transaction id are set, the length field stays what it was |
| `OpenFlowBytes.RepliesAre` | examples/flow_table/sdn.c:166-214 | the answer to every type of request, byte by byte or as one of the three below, and no answer to the others |
| `OpenFlowBytes.FeaturesAre` | examples/flow_table/sdn.c:341-372 | all bytes of the features reply with its four ports |
| `OpenFlowBytes.PortIs` | examples/flow_table/sdn.c:341-372 | the bytes of a port: number, address, name, and speed |
| `OpenFlowBytes.DescriptionIs` | examples/flow_table/sdn.c:374-397 | all bytes of the description |
| `OpenFlowBytes.ConfigIs` | examples/flow_table/sdn.c:319-339 | what configuration is stored after a message |
| `OpenFlowBytes.FieldsAre` | examples/flow_table/openflow.h:141-149 | where type, length and transaction id are in a message, most significant byte first |
| `OpenFlowBytes.NumbersAre` | examples/flow_table/openflow.h:141-149 | numbers are written most significant byte first |
| `Datapath.OutIsWhatIsSaid` | examples/flow_table/sdn.c:131-312 | in every run of messages and packets the output grows by the answers and the questions, in order |
| `Datapath.ControllerReadsReplies` | examples/flow_table/sdn.c:131-339 | in every run of messages and packets, with any well-sized messages queued before: the controller, parsing the output, gets exactly the answers and questions, in order, if and only if each request for the configuration comes when the last SET_CONFIG before it has the length 12 |
| `Datapath.UnsetConfigIsUnreadable` | examples/flow_table/sdn.c:78-85 | the witness: a request for the configuration and one for an echo, right after the start, are both answered, but the controller reads neither answer, because the stored length is in host byte order |
| `Datapath.HandleAllIsRun` | examples/flow_table/sdn.c:153-262 | handling the messages of a read is such a run |
| `Datapath.ReadsDoNotMatter` | examples/flow_table/sdn.c:131-263 | read after read, each handling what is complete and keeping the tail, the switch comes to the state, the output and the tail that one read of the whole stream would give |
| `Datapath.ReadyAfterHello` | examples/flow_table/sdn.c:161-172 | in every run the switch is ready exactly after the first HELLO or request for features |
| `Datapath.BufferingIsRun` | examples/flow_table/sdn.c:215-304 | what a run does to the packet lists is a run of the buffering below |
| `Datapath.PacketInsAreAsked` | examples/flow_table/sdn.c:265-312 | in every run the PACKET_INs in the output are, in order, the messages for the questions in the history, each with its transaction id, its buffer id and the bytes of a packet that was taken; the numbers for each buffer id agree |
| `Datapath.EveryRunAsksOnce` | examples/flow_table/sdn.c:131-312 | so in every run of the switch from its start, for every buffer id: the flag is up exactly if packets wait, the PACKET_INs said minus the flushes that returned packets are 0 or 1, and packets return in order of arrival |
| `FlowHistory.ListsOfRun` | examples/flow_table/sdn.c:215-304 | in every run of the switch from its start, told from what came in alone: the list of a flow holds exactly the packets taken since the last FLOW_MOD for its buffer id, and these behind the returned ones are all that were taken for the flow, in order |
| `FlowHistory.AsksWhenNothingHeld` | examples/flow_table/sdn.c:293-304 | a packet makes a PACKET_IN, with the next transaction id and the id of its flow, if and only if nothing of its flow was held |
| `OpenFlow.PacketInBytes` | examples/flow_table/sdn.c:437-458 | a PACKET_IN is a message of its own length that carries the transaction id and the buffer id |
| `OpenFlowBytes.PacketInIs` | examples/flow_table/sdn.c:430-458 | all bytes of a PACKET_IN: type 10, the length 148 twice, transaction id, buffer id, port, reason 0, and from byte 18 on the first 128 bytes of the packet |
| `Datapath.Datapath.constructor` | examples/flow_table/sdn.c:97-115 | the initial state, with the HELLO already queued |
| `Datapath.Datapath.HandleMessage` | examples/flow_table/sdn.c:159-261 | one message does what it does on values: answer, readiness, stored configuration, packet list |
| `Datapath.Datapath.HandleRead` | examples/flow_table/sdn.c:131-263 | one read handles exactly the messages that are then complete, in order, on the linked lists, and keeps the tail |
| `Datapath.Datapath.TakeWaiting` | examples/flow_table/sdn.c:270-304 | one packet: into the list of its flow, with a question if it is the first |
| `Datapath.Datapath.HandleWrite` | examples/flow_table/sdn.c:265-312 | what is sent and what stays queued are together what was queued and the new question; a packet is taken only when ready, and that is a step of the run |
| `SdnBuffering.StepKeepsInv` | examples/flow_table/sdn.c:215-304 | every packet and every FLOW_MOD keeps the invariant |
| `SdnBuffering.OneQuestionForEachWait` | examples/flow_table/sdn.c:265-312 | in every reachable state and for every buffer id: flag up exactly if packets wait; PACKET_INs minus flushes that returned packets is 0 or 1; the packets that arrived are those returned and then those waiting, in order |
| `SdnBuffering.TransactionIdsDiffer` | examples/flow_table/sdn.c:293-304 | transaction ids of PACKET_INs are distinct and increasing |
| `SdnBuffering.OneFlowForEachId` | examples/flow_table/sdn.c:276-292 | two packets went to the same list exactly if they are of the same flow |
| `PktList.PktList.constructor` | examples/flow_table/sdn_pkt_list.h:62-68 | an empty list |
| `PktList.PktList.Add` | examples/flow_table/sdn_pkt_list.h:71-86 | the linked list grows by one at the end, the counter with it |
| `PktList.PktList.SetFlag` | examples/flow_table/sdn_pkt_list.h:89-91 | only the flag changes |
| `PktList.PktList.GetFlag` | examples/flow_table/sdn_pkt_list.h:94-96 | the flag |
| `PktList.PktList.Take` | examples/flow_table/sdn.c:293-303 | one more packet, and a question exactly if the flag was down |
| `PktList.PktList.Flush` | examples/flow_table/sdn_pkt_list.h:99-122 | every held packet once, in order of arrival, with the action NEXT and the chain index 0; the list is empty, flag and counter zero |
| `PktTable.PktTable.constructor` | examples/flow_table/sdn.c:546-553 | 1024 empty lists that share no entry |
| `PktTable.PktTable.Take` | examples/flow_table/sdn.c:276-303 | a packet for one list; the other lists, on the heap beside it, are as before |
| `PktTable.PktTable.Release` | examples/flow_table/sdn.c:246-247 | the packets of one list in order of arrival, with their metadata; the other lists are as before |
| `FlowRules.ChooseKeepsTurns` | examples/flow_rule_installer/flow_rule_installer.c:392-420 | a chain is found exactly for TCP with at least one chain and UDP with at least two; TCP takes even indexes in turn, UDP odd ones |
| `FlowTurns.NextRule` | examples/flow_rule_installer/flow_rule_installer.c:392-725 | after any run from the start: if n TCP rules, without those for port 6000, have gone in before, the next takes index 2 (n mod (max + 1) / 2), one for port 6000 takes 0, and with n UDP rules before the next takes 1 + 2 (n mod max / 2); the table then has this entry and, if memory can be had and the reverse key is another one that is not there yet, the entry of the other direction, and no other change; any other rule changes nothing |
| `FlowTurns.OneRule` | examples/flow_rule_installer/flow_rule_installer.c:540-725 | the same for one rule from any state whose counters stand at the number of turns taken |
| `FlowTurns.SwapsBytes` | examples/flow_rule_installer/flow_rule_installer.c:660-663 | keys go in with their bytes reversed |
| `FlowRules.RuleKeepsInv` | examples/flow_rule_installer/flow_rule_installer.c:423-457 | whatever fails, each reference count is the number of entries on its chain |
| `FlowRules.RuleKeepsClosed` | examples/flow_rule_installer/flow_rule_installer.c:540-632 | a rule keeps a closed table closed under key reversal if and only if it does not go in without its other half |
| `FlowRules.TornStays` | examples/flow_rule_installer/flow_rule_installer.c:540-632 | an entry that is not paired never will be |
| `FlowRules.RunKeepsClosed` | examples/flow_rule_installer/flow_rule_installer.c:637-725 | over any run from a closed table: closed at the end if and only if no rule tore it |
| `FlowRules.TableOfRun` | examples/flow_rule_installer/flow_rule_installer.c:637-1010 | the same from the start, with the reference counts and indexes of the whole run |
| `FlowRules.TwoChainsSuffice` | examples/flow_rule_installer/flow_rule_installer.c:392-457 | with two chains, TCP and UDP flows and room for the reverse keys no rule tears the table and the program does not give up |
| `FlowRules.OneChainIsNotEnough` | examples/flow_rule_installer/flow_rule_installer.c:413-418 | with one chain the first UDP flow does both |
| `FlowRules.Installer.constructor` | examples/flow_rule_installer/flow_rule_installer.c:254-284 | counters and counts at zero |
| `FlowRules.Installer.IndexFor` | examples/flow_rule_installer/flow_rule_installer.c:392-420 | the index and the two counters |
| `FlowRules.Installer.ChainFor` | examples/flow_rule_installer/flow_rule_installer.c:423-457 | the chain, and exactly its reference count |
| `FlowRules.Installer.SetupFlipKey` | examples/flow_rule_installer/flow_rule_installer.c:540-632 | the entry of the other direction, with the return codes |
| `FlowRules.Installer.AddFlowKey` | examples/flow_rule_installer/flow_rule_installer.c:637-725 | one rule of the file, in network byte order, with the return codes |
| `FlowRules.Installer.SetupRuleForPacket` | examples/flow_rule_installer/flow_rule_installer.c:859-1010 | which packets make rules and what becomes of each packet, memory for the key failing included |

## Left out

- AesCcm.AesEncryptCcm: the buffer has one byte more than the source allocates, because in the case above the last byte would lie outside of it.
- ByteStrings.XorBuf: two stretches of one array coincide or do not overlap, as in every call of the source.
- AesCcm.ThereAndBack: speaks of the three key sizes of AES, because for others each call reads the words that its own stack happens to hold.
- AesKeySchedule.AesKeySetup: the key, the input of CBC-MAC and the inputs of CCM are sequences, since the source does not write to them.
- AesState.InvMixColumns: the order of the terms in each sum is the same for all four rows up to rotation; the source writes them in column order, which makes no difference to the sum.
- The copy of the cipher in `examples/aes_decrypt/aes.c` is the same code.
- AES key and IV choice, timing and secrecy: not functional correctness.
- Logging, signals, semaphores, statistics, deinitialisation and the variants of the reader with `USE_RTE_RING` or synchronous I/O.
- A bracket scan that starts at `<`: there is no plain match to compare it with. It is modelled, but nothing is claimed of what it finds.
- The search for the start pattern of `_GetTextInside` is a parameter.
- NestingState.NestingState.Update: takes what the regular expressions find in the line as a parameter; `previous_stack_top`, the error reports and the other fields of class blocks are left out, as are the other style checks of the linter.
- Datapath.Datapath.HandleRead: assumes SET_CONFIG, STATS_REQUEST and FLOW_MOD messages that hold what their types have, buffer ids that are in the table or are 0xFFFFFFFF, and no length of zero; the source reads past such messages, past the table, or for ever.
- Datapath.Datapath.HandleMessage: leaves out the flow directory entry that a FLOW_MOD installs.
- Datapath.Datapath.HandleWrite: every packet has a flow key; for one that is not IPv4 the lookup returns -EPROTONOSUPPORT and the source goes on with a list pointer that it has not set (sdn.c:276-291).
- Datapath.Datapath.TakeWaiting: the same.
- MsgBuf.MsgBuf.Push: does not model the overflow of 32-bit lengths and positions; `msgbuf_read_all` and `msgbuf_write_all` are loops over `Read` and `Write`.
- OpenFlow.PacketInBytes: transaction ids are numbered without end and written modulo 2^32; past that, ids on the wire repeat.
- FlowRules.Installer: byte order is that of a little-endian machine; lookups either find a key or do not, and have no third outcome.
- Reading the rule and chain files, building the chains, and clearing the flow directory.
- The bridge, monitor, basic NF, forward, speed tester and latency programs and `scripts/corehelper.py`: thin wrappers and counting.
