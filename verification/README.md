# DiNeMeter in Dafny

DiNeMeter meters internet traffic. A daemon counts bytes per address and sends a record of them every
half minute; a backend stores the records, splits them among users, and compacts them into blocks of
twenty minutes and then of two hours. This project models the parts of it that compute and proves what
they keep. `dafny verify dfyconfig.toml` checks all of it.

- `Bits`, `Coder`, `Tea`, `Text`, `TextCoder`, `TeaReference`, `Credentials`: the block cipher of Needham and
  Wheeler's "Correction to xtea" over arrays of any length, on targets that wrap at 32 bits, in PHP's 64-bit
  emulation and on JavaScript's doubles; the packing and printing around it; and the credentials that travel
  through it. `Coder` proves that rounds are undone for any mixing function; `Tea` supplies the real one and
  the methods that work in place, and `TeaReference` says on bits which cipher that is.
- `IpFilter`, `Cidr`: the four-level linked address filter, built in place and searched with backtracking,
  against a plain scan of the list and against prefix membership.
- `Counts`, `Options`, `Regrid`, `RegridLaws`, `Rounding`, `WindowLaws`, `Records`, `DataList`: cutting usage
  records onto a grid. `Regrid` is the specification, a total per trust level, user and slot;
  `DataList.Refactor` is the method over mutable, aliased records.
- `Archive`, `ArchiveStore`, `ArchiveContent`, `ArchiveTiming`, `ArchiveOrigin`: the record table and the two
  archive levels, as a state machine over whole runs and as methods of a store class; what every slot of the
  archive holds, and from which samples.
- `Totals`, `TotalLaws`, `Sharing`, `Controller`, `UsageLaws`, `UploadLaws`, `UploadOutcome`: usage in a window,
  proportional sharing, and an upload from request to archived rows.
- `Metering`, `MeteringRest`, `Daemon`: the daemon's threads as interleaved steps over a heap of tables and
  totals, how they come to rest, and the same passes run one at a time as methods of a class.

Words are numbers below 2^32; what a target stores for one is a cell, an integer congruent to it and small
enough to be exact. Other doubles are exact rationals, and byte counters are unbounded integers.

Where the code does less than it means to, the exact condition is proved:

- the first archive level drops what falls in a slot that starts after its cut (`Archive.Level1Conserves`,
  `Archive.LosingExample`), since its window ends one slot after the cut; what it lost never comes back
  (`Archive.BytesOverRun`);
- the upload branch of the split tests the download total, so uploads can vanish (`Sharing.UploadsConserved`,
  `UploadLaws.VanishingExample`);
- a record that strictly contains a window counts for nothing in it (`TotalLaws.IgnoredExactly`,
  `TotalLaws.IgnoredExample`);
- a prefix shorter than 24 bits covers addresses of its named group of 256 only (`Cidr.DecidesMembership`);
- the empty text does not survive encryption (`TextCoder.DecryptEncrypt`).


## Model

| member | source | states |
|---|---|---|
| Tea.CodingIsInvertible | src/dinemeter/crypto/Tea.hx:85-131 | coding with -n after coding with n gives back the words, for every array, every n of at most its length, positive or negative, and every key |
| Tea.Btea | src/dinemeter/crypto/Tea.hx:85-131 | in place, on a wrapping target, on PHP and on JavaScript, for every array of 32-bit values or of what an earlier coding left, and every n: the words left are those of the specification, so the decoder ends, and every number on the way is exact in a double and in 64 bits |
| Tea.EncodeThenDecode | src/dinemeter/crypto/Tea.hx:84-131 | what one target encodes the other decodes, leaving every word as it was |
| Tea.DecodingStopsOnTime | src/dinemeter/crypto/Tea.hx:112-129 | within the rounds of any length the decoder's sum is zero modulo 2^32 only when no round is left |
| Coder.ScheduleZero | src/dinemeter/crypto/Tea.hx:115-129 | a number of steps by a constant invertible modulo 2^32 sums to zero exactly when that number is a multiple of 2^32 |
| Coder.ScheduleClosed | src/dinemeter/crypto/Tea.hx:95-115 | the sum added up round by round by the encoder is the product that the decoder starts from |
| Coder.SumRetreats | src/dinemeter/crypto/Tea.hx:115-129 | the sum counted down by one step is what the target makes of the product with one round less |
| Coder.UnroundRound | src/dinemeter/crypto/Tea.hx:101-127 | a decoding round undoes an encoding round word for word, though each step reads neighbours that the round has already overwritten |
| Coder.RoundUnround | src/dinemeter/crypto/Tea.hx:101-127 | and an encoding round undoes a decoding round |
| Coder.DecodeEncode | src/dinemeter/crypto/Tea.hx:93-129 | any number of rounds is undone, whatever the mixing function |
| Coder.EncodeDecode | src/dinemeter/crypto/Tea.hx:93-129 | in the other order as well |
| Coder.RoundInPlace | src/dinemeter/crypto/Tea.hx:99-110 | the encoding round over the array, with its carried neighbour, computes the specified round and ends with the last word carried |
| Coder.UnroundInPlace | src/dinemeter/crypto/Tea.hx:118-128 | the decoding round over the array, whose last step uses the differently written expression, computes the specified inverse round |
| Coder.EncodeInPlace | src/dinemeter/crypto/Tea.hx:93-111 | the counted loop runs exactly the specified rounds, and cells that a target does not reduce stay within a fixed bound |
| Coder.DecodeInPlace | src/dinemeter/crypto/Tea.hx:112-130 | the loop that stops at a zero sum runs exactly the specified rounds, provided that the sum is not zero before; the bound holds here too |
| Tea.B32 | src/dinemeter/crypto/Tea.hx:141-153 | the PHP code maps every integer to the signed 32-bit value congruent to it; a wrapping target has wrapped already, and JavaScript keeps the number, also beyond 32 bits |
| Tea.B32Normalizes | src/dinemeter/crypto/Tea.hx:98-129 | on every target b32 keeps the word, and skipping it before a subtraction changes nothing after, so that a sum counted down from a product reaches the number zero itself |
| Tea.Rs | src/dinemeter/crypto/Tea.hx:133-139 | PHP's arithmetic shift and mask is the logical shift of the 32-bit word, for negative cells too |
| Tea.ShiftedOut | src/dinemeter/crypto/Tea.hx:133-139 | the mask keeps exactly the bits of the word that remain after the shift |
| Tea.Shifted | src/dinemeter/crypto/Tea.hx:103-127 | every writing of the left shifts, wrapped, cut to 32 bits by JavaScript and (line 127) bare on PHP, is congruent and bounded |
| Tea.CellMixFollows | src/dinemeter/crypto/Tea.hx:103-127 | the mixing expression on each target's cells, signed or grown beyond 32 bits, is congruent modulo 2^32 to the one on words |
| Tea.CellStirrersFollow | src/dinemeter/crypto/Tea.hx:98-127 | so is the whole step with its choice of key word, for every sum and position |
| TeaReference.CodingIsWritten | src/dinemeter/crypto/Tea.hx:93-111 | which cipher it is, for any number of words and any key: 6 + 52 / n rounds, round r with r times 9e3779b9 as its sum, every word of it made from its neighbours by the formula written out with its shifts and exclusive or told from the bits; fewer than two words stay |
| TeaReference.RoundIsWritten | src/dinemeter/crypto/Tea.hx:99-110 | one round in those terms: the following word is old, but for the last the new first, and the preceding one new, but for the first the old last |
| TeaReference.MixIsBits | src/dinemeter/crypto/Tea.hx:103 | the mixing formula of a word in those terms |
| TeaReference.KeyExample | src/dinemeter/crypto/Tea.hx:43-47 | a digest in lower case and the four words of its key, in order |
| TeaReference.PackedExample | src/dinemeter/crypto/Tea.hx:40-42 | eight characters and their two words, first character highest |
| TeaReference.PrintedExample | src/dinemeter/crypto/Tea.hx:49-58 | two words and their text, unpadded and in upper case with a dash between |
| Text.SplitFlat | src/dinemeter/crypto/Tea.hx:56-63 | splitting the joined numerals at the dash gives the numerals back |
| Text.ValueOfHex | src/dinemeter/crypto/Tea.hx:56-65 | reading an unpadded hexadecimal numeral gives its number |
| Text.CaseIrrelevant | src/dinemeter/crypto/Tea.hx:45-47 | the case of its letters matters neither to the value of a numeral nor to whether it is one |
| Text.PrintedUpperCase | src/dinemeter/crypto/Tea.hx:56 | printed numerals have upper-case letters |
| Text.DigitsAre | src/dinemeter/crypto/Tea.hx:45-65 | the values of the digits and letters, and the letters printed |
| Text.SplitCount | src/dinemeter/master/backend/StoredUser.hx:94 | there is one piece more than there are separators |
| TextCoder.UnpackPack | src/dinemeter/crypto/Tea.hx:40-80 | unpacking packed bytes gives the text back |
| TextCoder.UnpackSigned | src/dinemeter/crypto/Tea.hx:74-79 | bytes taken from a negative cell are those of its word |
| TextCoder.ParsedNumerals | src/dinemeter/crypto/Tea.hx:56-66 | words survive being printed and parsed |
| TextCoder.DecryptEncrypt | src/dinemeter/crypto/Tea.hx:37-82 | decrypting an encrypted text gives it back padded with NULs to a multiple of four if and only if it is not empty |
| TextCoder.EmptyComesBackLonger | src/dinemeter/crypto/Tea.hx:37-82 | the empty text is encrypted to the empty text, which decrypts to four characters |
| TextCoder.KeyArray | src/dinemeter/crypto/Tea.hx:43-47 | the key words are the four groups of eight digits of the digest |
| TextCoder.Pad | src/dinemeter/crypto/Tea.hx:39 | the loop appends just the NULs needed |
| TextCoder.PackData | src/dinemeter/crypto/Tea.hx:40-42 | the array holds the big-endian words of the text |
| TextCoder.Print | src/dinemeter/crypto/Tea.hx:49-58 | the text is the unpadded numerals joined by dashes, without a leading one |
| TextCoder.ReadNumerals | src/dinemeter/crypto/Tea.hx:62-66 | the array holds the words that the pieces stand for, on either target |
| TextCoder.UnpackData | src/dinemeter/crypto/Tea.hx:73-81 | the text is the bytes of the words, from signed cells too |
| TextCoder.Encrypt | src/dinemeter/crypto/Tea.hx:37-59 | the method computes the specified text on either target |
| TextCoder.Decrypt | src/dinemeter/crypto/Tea.hx:61-82 | the method computes the specified text on either target |
| Credentials.Credential | src/dinemeter/client/BackendRequest.hx:304-314 | the credential is the encrypted digest, colon, digest of the digest, under the session id if there is one and under the password otherwise |
| Credentials.CheckCredentials | src/dinemeter/master/backend/StoredUser.hx:83-101 | on the decrypted text: the first stage fails exactly if the number of colons is not one, and it is accepted exactly if it is a part without colon, a colon, and a text without colon that starts with the digest of the part |
| Credentials.VerdictIs | src/dinemeter/master/backend/StoredUser.hx:93-101 | the same of the verdict on any text |
| Credentials.PaddingIsHarmless | src/dinemeter/master/backend/StoredUser.hx:93-96 | NUL padding changes neither the number of sections nor the compared 32 characters |
| Credentials.SentIsAccepted | src/dinemeter/master/backend/StoredUser.hx:89-101 | every credential built with the user's password is accepted, for every digest function and time |
| Credentials.SendAndCheck | src/dinemeter/client/BackendRequest.hx:304-314 | the two methods together accept, on any pair of targets, under the password without a session and under the session id with one |
| IpFilter.ReadIpList | src/dinemeter/daemon/Daemon.hx:278-383 | the linked structure stands for the list: every node's bounds, child and successor are those its line asks for, in any order and with repeats |
| IpFilter.NextLine | src/dinemeter/daemon/Daemon.hx:306-368 | the nested branches hang the new nodes on exactly the level where the line departs from the one before |
| IpFilter.LaterLine | src/dinemeter/daemon/Daemon.hx:306-368 | a structure standing for k lines then stands for k + 1 |
| IpFilter.FirstLine | src/dinemeter/daemon/Daemon.hx:309-322 | the first line's chain of four nodes |
| IpFilter.FinishLists | src/dinemeter/daemon/Daemon.hx:378-382 | ending the last lists changes nothing |
| IpFilter.Match | src/dinemeter/daemon/Daemon.hx:248-276 | the search ends on every such structure and finds an address iff some line covers it |
| IpFilter.MatchList | src/dinemeter/daemon/Daemon.hx:244-383 | reading then searching agrees with a plain scan of the lines, as specified and as written |
| IpFilter.CoversAsWritten | src/dinemeter/daemon/Daemon.hx:295-308 | a line covers a packed address as it is written: without a prefix or with 0 the one address, with p bits the 2^(32 - p) values of the last octet from the one written, with more than 32 nothing |
| IpFilter.SplitExample | src/dinemeter/daemon/Daemon.hx:244-246 | the octets of two integers, one of them negative |
| IpFilter.Skip | src/dinemeter/daemon/Daemon.hx:268-270 | moving to the successor passes exactly the lines of one group, none of which covers the address |
| IpFilter.Pop | src/dinemeter/daemon/Daemon.hx:271-273 | leaving an exhausted level leaves the level above at its saved successor |
| IpFilter.Resume | src/dinemeter/daemon/Daemon.hx:262-273 | after backtracking the search stands at the first line not yet ruled out |
| IpFilter.GrownIsBuilt | src/dinemeter/daemon/Daemon.hx:323-368 | every earlier node still fits after the links made for a new line |
| Cidr.SplitPacked | src/dinemeter/daemon/Daemon.hx:244-246 | the octets of a packed address are those packed |
| Cidr.LongPrefix | src/dinemeter/daemon/Daemon.hx:306-308 | for prefixes of 24 to 32 bits, membership in the sense of section 3.1 of RFC 4632 is three equal octets and one shared block of last octets |
| Cidr.ShortPrefix | src/dinemeter/daemon/Daemon.hx:306-313 | a prefix shorter than 24 misses an address of its own block |
| Cidr.DecidesMembership | src/dinemeter/daemon/Daemon.hx:306-313 | a well-formed line decides that membership for every address iff its prefix has at least 24 bits and its last octet no bits after it |
| Cidr.ListDecidesMembership | src/dinemeter/daemon/Daemon.hx:306-313 | a list of such lines covers exactly the union of their blocks |
| Cidr.SearchBlocks | src/dinemeter/daemon/Daemon.hx:248-383 | for lines written with an address and a prefix that is missing, 0, or aligned and between 24 and 32, reading and searching decides whether the address is one written or agrees with one in the first p bits |
| Cidr.BlockAsWritten | src/dinemeter/daemon/Daemon.hx:295-308 | those conditions and blocks, told from the written prefix, are the specified ones |
| Cidr.NumberExample | src/dinemeter/daemon/Daemon.hx:306-308 | an address as a number, its first octet highest |
| DataList.Refactor | src/dinemeter/DataList.hx:22-100 | for every list, also with an object in it twice: the result lists exactly the cells of the specification for the values that the loop sees, each cell once; every block of it fills a slot counted from start and lies between start and end; it consists of new records and inputs; every input's final value is given, so empty ones end a second later, adopted ones hold the total of their slot, are returned if it is in the window, and no other changes; the values seen are the given ones if all objects differ |
| DataList.AdoptedIs | src/dinemeter/DataList.hx:25-41 | an input becomes a block if it fills a slot exactly and no input before it overlaps the slot |
| DataList.MetAgainDoubles | src/dinemeter/DataList.hx:30-41 | an input that became a block and is met again is added to itself, and the total of its slot doubles |
| DataList.Place | src/dinemeter/DataList.hx:24-88 | one sample, aligned or cut, takes the table from the totals of n samples to those of n + 1 |
| DataList.CutSample | src/dinemeter/DataList.hx:43-87 | the cutting loop with its running totals adds a sample's share to every slot it overlaps |
| DataList.Amounts | src/dinemeter/DataList.hx:46-84 | the rates computed with quotients give the floored shares, and the last slot the remainder |
| DataList.AddAligned | src/dinemeter/DataList.hx:30-42 | an aligned sample is added to the block of its slot or becomes that block |
| DataList.AddPiece | src/dinemeter/DataList.hx:59-84 | a share is added to the block of a slot, made on first use |
| DataList.SelectBlocks | src/dinemeter/DataList.hx:89-98 | exactly the blocks inside the window are returned |
| RegridLaws.Incremental | src/dinemeter/DataList.hx:22-100 | regridding a result with further samples equals regridding everything, slot by slot |
| RegridLaws.Idempotent | src/dinemeter/DataList.hx:22-100 | regridding a result changes nothing |
| RegridLaws.OrderIrrelevant | src/dinemeter/DataList.hx:24-98 | any permutation of the samples gives the same cells |
| RegridLaws.TotalOfConcat | src/dinemeter/DataList.hx:24-87 | a slot's total is a sum of contributions that depend on one sample each |
| RegridLaws.PiecesAreWhole | src/dinemeter/DataList.hx:43-87 | the shares of a sample sum to it in every field, whatever the floors were |
| RegridLaws.TableConservation | src/dinemeter/DataList.hx:24-88 | the table's bytes per trust level and user are those of the samples, all of them if none runs backwards |
| RegridLaws.Conservation | src/dinemeter/DataList.hx:24-98 | the output's bytes per trust level and user are the input's minus exactly the blocks outside the window |
| RegridLaws.CellsAligned | src/dinemeter/DataList.hx:63-98 | every block of the result lies on the grid |
| WindowLaws.CellsAre | src/dinemeter/DataList.hx:89-98 | the cells are exactly the touched slots from start to end, both included, for any origin, with their totals |
| WindowLaws.SlotsOfGrid | src/dinemeter/DataList.hx:30-45 | slots start a whole number of steps from the start of the window |
| WindowLaws.BlocksInWindow | src/dinemeter/DataList.hx:63-98 | every block lies between start and end and fills a slot counted from start |
| WindowLaws.SlotsAreOverlapped | src/dinemeter/DataList.hx:43-58 | a sample that does not run backwards has a part in exactly the slots it overlaps |
| WindowLaws.EmptyIsWhole | src/dinemeter/DataList.hx:25-27 | all of an empty sample goes to the slot of its start |
| WindowLaws.LostAtEnds | src/dinemeter/DataList.hx:89-98 | what a window loses of a sample is what the slots before its origin and those ending after it were given |
| WindowLaws.LostBeforeOrigin | src/dinemeter/DataList.hx:43-98 | before a positive origin too this is the running total at the origin: at most the exact part of the seconds before it, and less by at most one for every slot |
| Rounding.ShareBounds | src/dinemeter/DataList.hx:43-87 | a share before the last lies in (exact - 1, exact], the last in [exact, exact + number of earlier slots] |
| Rounding.SharesNonNegative | src/dinemeter/DataList.hx:70-84 | no share of a non-negative count is negative, and the last of a positive one is positive |
| Rounding.GivenBounds | src/dinemeter/DataList.hx:46-84 | the running totals stay within one per slot of the exact part before the slot |
| Rounding.LostIsOutside | src/dinemeter/DataList.hx:89-98 | what the window loses of a sample is what the slots outside it were given |
| Rounding.LostNothing | src/dinemeter/DataList.hx:89-98 | a window open to the left loses nothing of a sample iff the sample is empty of bytes, or runs forward and ends in a slot of the window |
| ArchiveStore.Store.RefactorArchive | src/dinemeter/master/backend/StoredConnection.hx:56-105 | the two phases in sequence are the specified archive step |
| ArchiveStore.Store.ArchiveLevel | src/dinemeter/master/backend/StoredConnection.hx:66-77 | select, regrid, delete, insert: together the specified phase, though records adopted by the regridder are deleted and inserted again |
| ArchiveStore.Store.InsertBlocks | src/dinemeter/master/backend/StoredConnection.hx:73-77 | exactly the blocks that hold something are stored, at the level |
| ArchiveStore.Store.DeleteAll | src/dinemeter/master/backend/StoredConnection.hx:72 | exactly the listed rows are removed |
| ArchiveStore.Store.GetDataForArc | src/dinemeter/master/backend/DataRecordManager.hx:37-43 | exactly the rows that the span reaches and that are not above the state, each once, as new objects |
| ArchiveStore.Store.GetData | src/dinemeter/master/backend/DataRecordManager.hx:29-35 | exactly the rows with the id of the user that the span reaches, whatever their level, each once, as new objects |
| ArchiveStore.Store.GetUserData | src/dinemeter/master/backend/StoredUser.hx:104-114 | those rows as they are, or regridded from the start of the span and cut to it |
| Archive.PhaseKeepsInv | src/dinemeter/master/backend/StoredConnection.hx:66-77 | a phase keeps archived records on their grids and alone in their slots, and leaves nothing old enough below its level |
| Archive.NewUnshared | src/dinemeter/master/backend/StoredConnection.hx:69-77 | no two records a phase inserts share trust level, user and slot |
| Archive.ArchiveSettles | src/dinemeter/master/backend/StoredConnection.hx:56-105 | after the archive ran both levels are settled, from any state that keeps the invariant |
| Archive.EveryRun | src/dinemeter/master/backend/StoredConnection.hx:56-105 | the same over every run of inserts and archive runs at non-decreasing times |
| Archive.AfterRun | src/dinemeter/master/backend/StoredConnection.hx:56-105 | the same in seconds: after an archive run records are at level 2 from two days of age, at level 1 from 15 minutes and otherwise at 0, fill slots of 7200 and 1200 seconds, and hold something |
| Archive.YoungUntouched | src/dinemeter/master/backend/StoredConnection.hx:56-105 | records younger than 15 minutes are left as they are |
| Archive.PhaseConservation | src/dinemeter/master/backend/StoredConnection.hx:66-77 | a phase keeps a user's bytes but exactly those that the records it takes have outside its window |
| Archive.BlockInOneSlot | src/dinemeter/master/backend/StoredConnection.hx:59-62 | a block of either grid lies whole in one two-hour slot, which gets all of it |
| Archive.Level2Conserves | src/dinemeter/master/backend/StoredConnection.hx:88-96 | level 2 conserves every user's bytes exactly |
| Archive.Level1Conserves | src/dinemeter/master/backend/StoredConnection.hx:66-77 | level 1 conserves a user's bytes iff each record it takes is empty of bytes, or runs forward and ends in a slot starting at or before its cut |
| Archive.ArchiveConserves | src/dinemeter/master/backend/StoredConnection.hx:56-105 | an archive run adds bytes in no field, and conserves a user's bytes under just that condition |
| Archive.ArchiveLedger | src/dinemeter/master/backend/StoredConnection.hx:56-105 | what a user had stored before an archive run is what is stored after it and what its first phase lost, exactly |
| Archive.LosesExactly | src/dinemeter/master/backend/StoredConnection.hx:66-77 | a loss is negative in no field, and nothing if and only if no record taken of the user reaches past the cut |
| Archive.LosingExample | src/dinemeter/master/backend/StoredConnection.hx:60-69 | a five-minute record that is taken and loses bytes |
| Archive.BytesOverRun | src/dinemeter/master/backend/StoredConnection.hx:56-105 | over every run what was inserted is what is stored and what archive runs have lost, exactly; so no field stored exceeds what was inserted, and the two are equal if and only if no archive run met a record that it lost bytes of |
| ArchiveContent.PhaseContent | src/dinemeter/master/backend/StoredConnection.hx:66-77 | a phase that takes all of its level leaves in each slot of its window the sum of the parts of what it took |
| ArchiveContent.FirstContent | src/dinemeter/master/backend/StoredConnection.hx:66-77 | the first phase adds to every fine slot the parts of the records it takes for the first time, and touches no coarse slot |
| ArchiveContent.SecondContent | src/dinemeter/master/backend/StoredConnection.hx:88-96 | the second phase adds to a coarse slot exactly its fine slots that start at or before the cut |
| ArchiveContent.SecondLeaves | src/dinemeter/master/backend/StoredConnection.hx:88-96 | and empties just those fine slots |
| ArchiveContent.ContentOverRun | src/dinemeter/master/backend/StoredConnection.hx:56-105 | over every run each fine slot holds what archive runs added to it until it is old enough, and each coarse slot the sum of its old enough fine slots |
| ArchiveTiming.ArrivedOverRun | src/dinemeter/master/backend/StoredConnection.hx:56-105 | as long as nothing of a user is lost, what has arrived in a fine slot and what is pending for it are the parts of all samples inserted |
| ArchiveTiming.TimingIrrelevant | src/dinemeter/master/backend/StoredConnection.hx:56-105 | two runs inserting the same samples in any order, with archive runs at any times, that lose nothing of a user and archive all of it by the same time hold the same in every slot |
| ArchiveOrigin.ArrivedFromOps | src/dinemeter/master/backend/StoredConnection.hx:56-105 | over every run, with losses or without, what has arrived in a fine slot is the sum of the parts of the inserted samples for which the slot starts at or before the first cut that took the sample |
| ArchiveOrigin.WaitingInRun | src/dinemeter/master/backend/StoredConnection.hx:66-72 | the records not yet archived are the samples that no archive run so far was late enough to take |
| ArchiveOrigin.ContentFromOps | src/dinemeter/master/backend/StoredConnection.hx:56-105 | so after every run the operations alone, not the states between them, tell what every slot of either level holds |
| Totals.Total | src/dinemeter/DataRecord.hx:47-96 | for one trust level its record or nothing; for none the record of the lowest level with a counted sample, or an empty one |
| Totals.Count | src/dinemeter/DataRecord.hx:50-86 | one sample updates the record of its level as specified, made on first use |
| Totals.WeightedOf | src/dinemeter/DataRecord.hx:65-85 | dividing by a quotient of lengths and rounding is the rounded share, with no division by zero |
| Totals.RoundsHalvesUp | src/dinemeter/DataRecord.hx:65-68 | halves are rounded up |
| Totals.CountedIs | src/dinemeter/DataRecord.hx:51-76 | a sample counts if it lies in the window, ends in it after its start, or starts in it before its end |
| TotalLaws.ShareError | src/dinemeter/DataRecord.hx:51-86 | a partly overlapping record is within half a byte of its exact share, an inside one exact, a strictly containing one ignored |
| TotalLaws.IgnoredExactly | src/dinemeter/DataRecord.hx:51-86 | being within half a byte for every count fails exactly for records strictly containing a non-empty window |
| TotalLaws.IgnoredExample | src/dinemeter/DataRecord.hx:51-86 | thirty seconds of traffic count for nothing in the ten seconds in their middle |
| TotalLaws.TotalError | src/dinemeter/DataRecord.hx:47-96 | the total is within half a byte per partly overlapping record of the exact sum less the ignored shares |
| TotalLaws.NoneIgnored | src/dinemeter/DataRecord.hx:51-86 | with no strictly containing record the ignored shares are nothing |
| TotalLaws.CutWindow | src/dinemeter/DataRecord.hx:47-96 | cutting a window adds to each field between nothing and one for every record crossing the cut |
| Controller.PutData | src/dinemeter/master/backend/Controller.hx:129-200 | the rows afterwards are those of the specified inserts followed by an archive step |
| Controller.Split | src/dinemeter/master/backend/Controller.hx:142-190 | one uploaded record becomes a record for every user with that user's shares |
| Controller.Usage | src/dinemeter/master/backend/Controller.hx:143-157 | the loop sums usage and quotas of all users |
| Controller.Fetch | src/dinemeter/master/backend/Controller.hx:136-140 | for every user exactly the records with the id of that user that the span of the upload reaches |
| Controller.Span | src/dinemeter/master/backend/Controller.hx:130-135 | the earliest start and latest end of an upload |
| Controller.LowestTrustIs | src/dinemeter/master/backend/Controller.hx:147 | what counts as usage is the lowest trust level of which anything counts in the window |
| UsageLaws.UseIsOfAllRecords | src/dinemeter/master/backend/Controller.hx:130-150 | for every uploaded record every user is taken to have used what all stored records of that user show in the time of the record, though only those that the span of the upload reaches are fetched |
| UsageLaws.FetchedUse | src/dinemeter/master/backend/DataRecordManager.hx:29-35 | records that run forward and that a span does not reach show no use in a window within it |
| UsageLaws.SpanEncloses | src/dinemeter/master/backend/Controller.hx:130-135 | the span of an upload encloses every record of it, and its ends are a start and an end among them |
| UsageLaws.StoredTimes | src/dinemeter/master/backend/Controller.hx:142-199 | every uploaded record is stored once for every user named, in order, with its own start and end, the trust level of the upload and the id of the user |
| Sharing.SplitBounds | src/dinemeter/master/backend/Controller.hx:158-181 | in every field and branch the shares sum to within n/2 of the record, and to nothing for uploads that vanish |
| Sharing.EachShare | src/dinemeter/master/backend/Controller.hx:158-181 | unless uploads vanish, every single user gets in every field the equal part, the part of the quotas or the part of the usage, to half a byte |
| Sharing.QuotaExample | src/dinemeter/master/backend/Controller.hx:158-181 | shares worked out with quotas and no use: downloads follow one kind of quota, uploads the other |
| Sharing.EvenExample | src/dinemeter/master/backend/Controller.hx:158-181 | shares worked out without quotas |
| Sharing.UseExample | src/dinemeter/master/backend/Controller.hx:158-181 | shares worked out with quotas and use: each counter follows its own use |
| Sharing.UploadsConserved | src/dinemeter/master/backend/Controller.hx:166-172 | uploads of every size are conserved to that precision iff not (downloads used, no uploads used, and upload quotas set) |
| Sharing.VanishedShare | src/dinemeter/master/backend/Controller.hx:166-172 | where uploads vanish every single share is zero |
| Sharing.ProportionalIsShare | src/dinemeter/master/backend/Controller.hx:160-181 | dividing by a quotient of totals gives the proportional part to half a byte |
| Sharing.SharesSum | src/dinemeter/master/backend/Controller.hx:158-181 | parts by weights summing to the total are off by at most half a byte each together |
| UploadLaws.SharesNotNegative | src/dinemeter/master/backend/Controller.hx:158-181 | no share of a proper record is negative |
| UploadLaws.UploadSettles | src/dinemeter/master/backend/Controller.hx:129-200 | from a store keeping the archive invariant every upload leads to one where both levels are settled |
| UploadLaws.SplitKeepsBytes | src/dinemeter/master/backend/Controller.hx:142-190 | the records stored for an upload to n users hold in each field what survives of it, to n/2 per uploaded record |
| UploadLaws.UploadBytes | src/dinemeter/master/backend/Controller.hx:129-199 | before the archive runs the store has gained exactly the upload for one user, and what survives of it to that precision for several |
| UploadLaws.VanishingExample | src/dinemeter/master/backend/Controller.hx:142-172 | two users with upload quotas of whom one has downloaded: an upload of a hundred bytes is stored as none |
| UploadOutcome.UploadLeaves | src/dinemeter/master/backend/Controller.hx:129-200 | after the archive run that ends an upload a user has at a trust level what was stored and what was brought less exactly what the archive lost, and all of it iff no record of the user, old or new, is taken that loses bytes |
| UploadOutcome.BroughtToOne | src/dinemeter/master/backend/Controller.hx:191-199 | a single user is brought exactly the upload, at its trust level |
| UploadOutcome.BroughtToEach | src/dinemeter/master/backend/Controller.hx:142-190 | each of several users is brought in every field the part due by equal split, quota or usage, to half a byte for every uploaded record and every time the user is named |
| UploadOutcome.ShareIsDue | src/dinemeter/master/backend/Controller.hx:158-181 | every single share is the due part to half a byte, in every branch |
| Metering.EveryRun | src/dinemeter/daemon/Daemon.hx:110-203 | over every interleaving of any number of packet handlers with realtime and output: mutual exclusion; every byte begun is in a handler, the table, realtime, the totals, output or sent; field by field these are the bytes of packets of unmetered addresses as unmetered and of the others as metered; reports tile time from the start on, each ending at a time that the clock showed during its own pass, and none ends before it starts as long as the clock does not go back |
| Metering.HandledByField | src/dinemeter/daemon/Daemon.hx:143-149 | down and up of packets are summed as unmetered exactly for the unmetered addresses |
| Metering.TalliedByField | src/dinemeter/daemon/Daemon.hx:142-149 | the same of a table of addresses |
| Metering.EndsAreRead | src/dinemeter/daemon/Daemon.hx:192-203 | each report, sent or being made, ends at a clock reading of its own pass |
| Metering.StepConserves | src/dinemeter/daemon/Daemon.hx:110-203 | every step of every thread keeps the mutex discipline and that sum |
| Metering.HandlerStep | src/dinemeter/daemon/Daemon.hx:110-122 | a handler changes nothing but the current table, the mutex and its own place |
| Metering.HandlerWrites | src/dinemeter/daemon/Daemon.hx:113-121 | what is taken from a handler's unwritten bytes is added to the table, through separate loads and stores |
| Metering.RealtimeMoves | src/dinemeter/daemon/Daemon.hx:136-157 | taking the table, visiting its addresses and adding the sums field by field moves bytes without loss |
| Metering.OutputMoves | src/dinemeter/daemon/Daemon.hx:189-203 | swapping the totals object and copying it after the mutex is released moves bytes without loss |
| Metering.StepIsTimely | src/dinemeter/daemon/Daemon.hx:192-203 | reports follow each other in time though start and end are read after the mutex is released, for any readings of the clock |
| Metering.ReportsOrdered | src/dinemeter/daemon/Daemon.hx:192-203 | while the clock does not go back no report ends before it starts |
| Metering.RealtimeExcludes | src/dinemeter/daemon/Daemon.hx:136-157 | a step of realtime keeps both mutexes right and leaves the current table alone while a handler has it |
| Metering.TilesFollow | src/dinemeter/daemon/Daemon.hx:192-203 | each report ends where the next starts, from the start of the daemon on |
| Metering.NeverStuck | src/dinemeter/daemon/Daemon.hx:110-203 | unless every thread waits for a packet or a timer, one can take a step |
| MeteringRest.RankFalls | src/dinemeter/daemon/Daemon.hx:110-203 | every step of a thread lowers a rank made of the places of all threads and the addresses that realtime has still to visit |
| MeteringRest.StepsAreBounded | src/dinemeter/daemon/Daemon.hx:110-203 | so without arrivals and timers the threads take no more steps than the rank |
| MeteringRest.ComesToRest | src/dinemeter/daemon/Daemon.hx:110-203 | and from every state can come to rest |
| MeteringRest.EverythingCanBeSent | src/dinemeter/daemon/Daemon.hx:110-203 | from every state there is a way on, without arrivals, to one at rest where every packet that had arrived is sent |
| MeteringRest.EveryRunCanBeSent | src/dinemeter/daemon/Daemon.hx:110-203 | in particular from every state of every run |
| Metering.AllSent | src/dinemeter/daemon/Daemon.hx:110-203 | at rest with empty table and totals everything handled has been sent |
| Daemon.Meter.Handler | src/dinemeter/daemon/Daemon.hx:110-122 | a packet changes its own address's entry only and adds its bytes to those unsent |
| Daemon.Meter.Realtime | src/dinemeter/daemon/Daemon.hx:136-157 | a pass empties the table into the totals: the unmetered fields grow by the integer sums over the addresses that some line names, the metered ones by those over the others |
| Daemon.Meter.Tally | src/dinemeter/daemon/Daemon.hx:140-149 | the loop sums the table field by field, by what a plain scan of the unmetered list as written says of each address |
| Daemon.Meter.Output | src/dinemeter/daemon/Daemon.hx:189-203 | a pass makes a record of the totals for the time since the last and zeroes them |
| Daemon.Meter.ReadUnmetered | src/dinemeter/daemon/Daemon.hx:91 | the list read decides from then on |

## Left out

- DataList.Refactor: does not model the order of blocks within the result (trust level, user, then hash order).
- RegridLaws.TableConservation: a sample that ends before it starts is handled as the code does, but its bytes are counted only if its last slot is not before its first.
- ArchiveStore.Store.RefactorArchive: each committed phase is one step of the table; SQL, transactions and rollback are not part of this model, nor is the id a row gets on insertion beyond its being unused.
- Totals.Total: exact rationals stand for doubles; the 32-bit overflow of counters is not modelled.
- Controller.PutData: privileges, decoding of the request and unknown users are not part of this model; users are the objects that the names resolve to, and the archive's clock is a parameter.
- Sharing.SplitBounds: assumes quotas and stored usage that are not negative; a share divided by a zero quota's infinite quotient is zero.
- IpFilter.ReadIpList: starts from parsed octets and prefix; the regular expression is not part of this model, and the 32-bit overflow of the span of a prefix of length 1 is not modelled.
- TextCoder.Decrypt: a piece that is no hexadecimal numeral reads as zero, and one of more than eight digits as its number modulo 2^32; MD5 and the library's number parsing are not part of this model.
- Tea.Btea: PHP with integers of less than 64 bits, and targets with integers of less than 32, are not modelled.
- Credentials.CheckCredentials: the client address and timeout checks of the session path are left out.
- Credentials.Credential: the request parameters around the credential are left out.
- Metering.EveryRun: which addresses are unmetered is fixed for a run, since the list is read before the first packet is handled; the model ends at the record that output sends; the cache of unsent records, the realtime file and exceptions are left out, and a thread's local arithmetic is part of the step that loads its operand.
- Daemon.Meter.Realtime: one thread at a time; interleaving is the subject of Metering. The table's entries are values there, not shared objects.
- Trust levels and user ids are natural numbers; the archive's run laws assume records with times and counts that are not negative.
- Formatting of addresses, configuration, updating of daemon and database, packet capture and the whole user interface would add easy members or foreign calls only.
