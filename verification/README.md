# Verified models of srsLTE's MAC codecs, security primitives, NAS codecs and logger

This project models the parts of srsLTE whose correctness rests on many pieces of code at once, and
proves what they promise for every input, every sequence of calls or every interleaving.

* **MAC PDUs** (`lib/src/common/pdu.cc`, TS 36.321 sections 6.1.2, 6.1.5, 6.2.1 to 6.2.3).
  `SchPdu.Pdu` is the mutable PDU object: subheaders are created and filled, `rem_len` is charged on
  the assumption that the latest SDU is the last one, and `WritePacket` chooses among the padding
  forms and writes backwards from the SDUs. `MacFormat` says what an encoded PDU is and how it is
  parsed, `MacLayout` what `write_packet` emits and what it costs. `ControlElements` and `ControlPdu` take
  the control elements of fixed layout from their setters through a whole PDU to their getters. `Bsr`,
  `BsrLevels` and `Rar` are the buffer status report, where its levels come from, and the random access
  response.
* **Security primitives** (`lib/src/common/liblte_security.cc`). `SBoxes`, `AlphaField`, `MixColumns`,
  `ColumnBoxes` and `Snow3G` are the SNOW 3G generator with an explicit inverse of every clock, and
  `Snow3GRecurrence` its keystream as a recurrence over time, without a state; `Eea1` is the cipher built
  on it; `Rijndael` and `RijndaelMachine` are the local block cipher on values and in place, and `SBoxField`
  its S-box as the field inverse; `Cmac` is AES-CMAC as RFC 4493 sections 2.3 and 2.4 define it, and `Eia2`
  both overloads of the integrity algorithm, in which the library's AES is an arbitrary function on blocks.
  `Snow3GTestSet`, `Eea1TestSet` and `RijndaelTestSet` work out published test sets in numbers, one lemma a
  clock or round, over the tables of `SBoxTables`; `Eia2Examples` does the same for EIA2 with a simple cipher.
* **NAS elements** (`lib/src/asn1/liblte_mme.cc`, TS 24.301 and TS 24.008). `NetworkName`,
  `AccessPointName`, `ProtocolConfigOptions`, `TrafficFlowTemplate` (the last two over
  `LengthPrefixed`) and the whole message `PdnConnectivityRequest`.
* **Bit packing** (`lib/src/asn1/liblte_common.cc`): `BitPacking`.
* **The threaded logger** (`lib/src/common/logger_file.cc`): `LoggerFile`, a system of interleaved
  steps of any number of producers, the consumer thread and the destructor.

Code that updates arrays or objects is modelled by methods on arrays and classes that are proved
against a function of the inputs; the round trips, inverses and invariants are lemmas about that
function. `CommonTypes` has the shared types, and `Buffers` the shared notion "these bytes stand at
this position and nothing else changed".

Where the code does not meet the clean statement for all inputs, the model keeps the code and the
lemma gives the exact condition as an equivalence:

* a parser with room for `max` subheaders reads `max - 1` of them (`MacFormat.ParseUndoesEncode`,
  `Rar.ListComesBack`), so it can miss what a writer with the same room wrote
  (`SchPdu.SameLimitIsNotEnough`);
* a PDU whose only subheader could not be filled and that has at most two bytes left is no encoding
  at all (`SchPdu.ShortEmptyPduIsMalformed`);
* `sdu_offset_start` leaves two bytes per SDU subheader, so three-byte subheaders can make
  `write_packet` fail; its contract states exactly when it succeeds, counted from the items
  (`SchPdu.Pdu.WritePacket`), and `SchPdu.LongSubheadersAreTurnedAway` builds a failing PDU;
* one of the 62 buffer size levels is not the value of its law: 4667 for 4677 (`BsrLevels.LevelsAreGeometric`);
* the long buffer status report loses bits of two of the four indices (`Bsr.LongFormatRoundTrips`);
* a backoff value is lost when responses follow (`Rar.BackoffSurvives`), and the responses get each
  other's payloads (`Rar.BackoffShiftsPayloads`);
* a network name without any supported character makes the reader take an octet that is not its own
  (`NetworkName.NameComesBack`);
* unpacking a traffic flow template leaves parts of the structure as they were
  (`TrafficFlowTemplate.TemplateComesBack`);
* a length octet wraps at 256 (`ProtocolConfigOptions.OptionsComeBack`), and a received element can
  announce more than the structure holds (`ProtocolConfigOptions.ReceivedFitsExactly`,
  `TrafficFlowTemplate.ReceivedFitsExactly`);
* a request is read past its end when the following octet looks like an element
  (`PdnConnectivityRequest.RequestComesBack`);
* the header of EIA2 takes more than one bit of the direction, which then falls on the bearer
  (`Eia2.HeaderIsTheLayout`, `Eia2.DirectionIsNotMasked`);
* the destructor of the logger can wait forever (`LoggerFile.ShutdownExactly`, `LoggerFile.ShutdownFromStop`).

Pointers that the code checks for null are nullable where the check has an effect that a caller sees
(`Eea1.Encrypt`, `Eia2.ByteMac`, `Eia2.BitMac`); elsewhere they are non-null parameters. A reader of a
NAS element may look at octets behind it, so the unpackers require that much of the message buffer
(the `REACH` constants); the buffer of the message structure has 12756 octets.

## Model

| member | source | states |
|---|---|---|
| `MacFormat.ReadsAllHeads` | lib/src/common/pdu.cc:650-705 | reading the subheaders of any well-formed list finds every identifier and size, stops behind the last one, and sees the E bit clear exactly there |
| `MacFormat.PlacesBodies` | lib/src/common/pdu.cc:707-711 | the payload positions found by walking the sizes are the positions where the bodies stand |
| `MacFormat.SizesAddUp` | lib/src/common/pdu.cc:50-69 | the sizes with their headers add up to the PDU but for the last element, which is what the subtraction in the parser relies on |
| `MacFormat.ParseFindsAll` | lib/src/common/pdu.cc:50-69 | parsing the encoding of a list that fits the reader finds all its elements, the inferred size of the last included |
| `MacFormat.ParseUndoesEncode` | lib/include/srslte/common/pdu.h:134-148 | parsing finds exactly the encoded elements if and only if the reader has room for all of them |
| `MacLayout.WrittenVersusCharged` | lib/src/common/pdu.cc:227-293 | what is written for the items is what was charged for them, plus two bytes per subheader that was never filled |
| `MacLayout.CostOfFullSubheader` | lib/src/common/pdu.cc:103-114 | giving the last SDU its full subheader costs exactly the correction of `rem_len` |
| `MacLayout.LengthCheck` | lib/src/common/pdu.cc:188-207 | the sum compared with the PDU length matches exactly when no subheader is blank, in every padding case |
| `MacLayout.EmittedLength` | lib/src/common/pdu.cc:188-213 | without blank subheaders the written PDU has exactly the charged length plus the remaining length |
| `MacLayout.EmittedHeadsAreHeads` | lib/src/common/pdu.cc:141-164 | the emitted subheaders are those of the list padding, control elements, SDUs, trailing padding, with the E bit clear on the last |
| `MacLayout.EmittedBodiesAreBodies` | lib/src/common/pdu.cc:166-175 | the emitted payloads are those of the same list in the same order |
| `MacLayout.ElementsAreWellFormed` | lib/src/common/pdu.cc:141-175 | the list that `write_packet` emits is one the parser accepts |
| `MacLayout.HeadsCounted` | lib/src/common/pdu.cc:117-130 | the subheaders and control elements take one byte per item, one more per SDU, one more per SDU of 128 bytes or more, and the control element bytes, less the length of the marked SDU |
| `SchPdu.ChargedAppend` | lib/include/srslte/common/pdu.h:85-93 | creating a subheader keeps the space accounting |
| `SchPdu.ChargedDel` | lib/include/srslte/common/pdu.h:104-111 | removing an unfilled subheader keeps the space accounting |
| `SchPdu.ChargedCe` | lib/src/common/pdu.cc:236-255 | charging a control element keeps the accounting and the remaining length non-negative |
| `SchPdu.ChargedSdu` | lib/src/common/pdu.cc:268-293 | charging an SDU, with the correction for the SDU that was last before, keeps the accounting and the remaining length non-negative |
| `SchPdu.ChargedTwice` | lib/src/common/pdu.cc:246-255 | charging a filled subheader again, or deleting it, breaks the accounting in every case |
| `SchPdu.Pdu.constructor` | lib/include/srslte/common/pdu.h:166-181 | an initialised PDU is empty, has its whole length left and satisfies the invariant |
| `SchPdu.Pdu.NewSubh` | lib/include/srslte/common/pdu.h:85-102 | keeps the invariant; succeeds exactly below the subheader limit with space left, and appends one blank item |
| `SchPdu.Pdu.DelSubh` | lib/include/srslte/common/pdu.h:104-111 | removes exactly the latest item, if there is one; the accounting stays exact if and only if that item was unfilled |
| `SchPdu.Pdu.GetSduSpace` | lib/src/common/pdu.cc:284-293 | the space for an SDU is what is left after the correction for the previous last SDU |
| `SchPdu.Pdu.SetCe` | lib/src/common/pdu.cc:503-583 | succeeds exactly when the element and its subheader fit, fills the latest item and charges for it, else changes nothing; the accounting stays exact if and only if the subheader was unfilled before |
| `SchPdu.Pdu.SetCRnti` | lib/src/common/pdu.cc:529-541 | needs three bytes; the latest item becomes identifier 27 with the C-RNTI in two bytes, and the account stays exact if the subheader was unfilled |
| `SchPdu.Pdu.SetConResId` | lib/src/common/pdu.cc:542-558 | the same with seven bytes for identifier 28 and the low 48 bits in six bytes |
| `SchPdu.Pdu.SetPhr` | lib/src/common/pdu.cc:559-570 | the same with two bytes for identifier 26 |
| `SchPdu.Pdu.SetTaCmd` | lib/src/common/pdu.cc:572-583 | the same with two bytes for identifier 29 |
| `SchPdu.Pdu.SetSdu` | lib/src/common/pdu.cc:631-646 | succeeds exactly when the SDU fits, makes it the last SDU, stores its bytes and charges for it, else changes nothing; an empty SDU is charged for and breaks the accounting |
| `SchPdu.Pdu.SetSduFrom` | lib/src/common/pdu.cc:599-629 | the same for an SDU supplied through an interface, for every result it returns; a result above the request is refused and breaks the accounting |
| `SchPdu.Pdu.WritePacket` | lib/src/common/pdu.cc:76-216 | succeeds exactly when there is a subheader, none of the remaining is blank, and the front, counted from the items, is below `2 * max + 13`; then the buffer holds the emitted PDU; also the new `rem_len`, and that the accounting is exact afterwards only if nothing was left |
| `SchPdu.FrontIsCounted` | lib/src/common/pdu.cc:117-135 | the front that is compared with `sdu_offset_start` is the one counted from the items |
| `SchPdu.UsedUp` | lib/src/common/pdu.cc:103-114 | what is left in `rem_len` agrees with the accounting only if nothing was left before |
| `SchPdu.SdusStay` | lib/src/common/pdu.cc:137-175 | the written PDU has the SDUs where they were stored |
| `SchPdu.LongSubheadersFit` | lib/src/common/pdu.cc:131-135 | as many long SDUs as the subheader limit allows fit only for a limit below eighteen |
| `SchPdu.LongSubheadersAreTurnedAway` | lib/src/common/pdu.cc:131-135 | nineteen SDUs of 128 bytes, added one by one to a PDU with room for twenty subheaders, make `write_packet` give up |
| `SchPdu.Measure` | lib/src/common/pdu.cc:97-135 | computes padding, header and control element sizes; they add up to the PDU exactly when no subheader is blank, and the padding is never negative |
| `SchPdu.Assemble` | lib/src/common/pdu.cc:97-216 | writes the front right before the SDUs and the padding behind them, and succeeds under the exact condition |
| `SchPdu.PduComplete` | lib/src/common/pdu.cc:137-175 | front, stored SDUs and padding together are the emitted PDU |
| `SchPdu.WriteHeads` | lib/src/common/pdu.cc:145-158 | writes the subheaders of one kind in order and changes nothing else |
| `SchPdu.WriteCePayloads` | lib/src/common/pdu.cc:166-171 | writes the control element payloads in order and changes nothing else |
| `SchPdu.EmittedIsEncoding` | lib/src/common/pdu.cc:76-216 | the emitted bytes are the encoding of the list of elements, and as long as the PDU |
| `SchPdu.WrittenPduParses` | lib/src/common/pdu.cc:50-216 | the parser finds exactly padding, control elements and SDUs in insertion order, with identifiers, sizes and bytes, if and only if it has room |
| `SchPdu.SentIsReceived` | lib/src/common/pdu.cc:50-216 | the same from the invariant of the PDU object, so for every sequence of calls |
| `SchPdu.ShortEmptyPduIsMalformed` | lib/src/common/pdu.cc:92-150 | a PDU with only an unfillable subheader and at most two bytes is the encoding of no list |
| `SchPdu.ParsePacket` | lib/src/common/pdu.cc:50-69 | the two-pass parser computes the parse of the buffer |
| `SchPdu.ReadAllHeads` | lib/include/srslte/common/pdu.h:134-143 | the loop reads the subheaders that the specification of the parser lists |
| `SchPdu.WriteAndParse` | lib/src/common/pdu.cc:50-216 | writing any valid PDU succeeds under the exact condition, and parsing the bytes gives its items back |
| `ControlElements.CRntiComesBack` | lib/src/common/pdu.cc:379-386 | every 16-bit C-RNTI is read back from its two bytes |
| `ControlElements.ConResIdComesBack` | lib/src/common/pdu.cc:388-399 | the low 48 bits of every identity are read back from its six bytes |
| `ControlElements.PhrComesBack` | lib/src/common/pdu.cc:401-408 | every power headroom is read back rounded down and limited to -23 .. 40 |
| `ControlElements.TaCmdComesBack` | lib/src/common/pdu.cc:452-459 | six bits of every timing advance are read back |
| `ControlPdu.ReadsUplinkControl` | lib/src/common/pdu.cc:327-345 | identifier, size and E bit that each of the twelve uplink control subheader bytes stands for, in numbers |
| `ControlPdu.ReadsDownlinkControl` | lib/src/common/pdu.cc:346-357 | the same for downlink: six bytes behind 0x1C and 0x3C, one behind 0x1D and 0x3D, none behind the others |
| `ControlPdu.ReadsSdu` | lib/src/common/pdu.cc:682-705 | every identifier up to 25 announces an SDU: no length without the E bit, else seven bits, or fifteen behind a set F bit |
| `ControlPdu.SduSubheaders` | lib/src/common/pdu.cc:650-670 | the subheader bytes of SDUs of 127, 128 and 32767 bytes, and of a last SDU, in numbers |
| `ControlPdu.ContentionThenSdu` | lib/src/common/pdu.cc:682-705 | whatever its other bytes, a 12-byte downlink PDU that starts with 0x3C 0x00 has an identity at 2 and an SDU of four bytes at 8 |
| `ControlPdu.ControlIsFound` | lib/src/common/pdu.cc:529-583 | every control element of every written PDU, whatever else is in it, is found by a reader with room for it, with its bytes |
| `ControlPdu.CRntiIsRead` | lib/src/common/pdu.cc:379-386 | the getter of that element returns the C-RNTI that was set; identifier 27 and size 2 |
| `ControlPdu.ConResIdIsRead` | lib/src/common/pdu.cc:388-399 | the same for the contention resolution identity; identifier 28 and size 6 |
| `ControlPdu.PhrIsRead` | lib/src/common/pdu.cc:401-408 | the same for the power headroom; identifier 26 and size 1 |
| `ControlPdu.TaCmdIsRead` | lib/src/common/pdu.cc:452-459 | the same for the timing advance; identifier 29 and size 1 |
| `ControlPdu.SendCRnti` | lib/src/common/pdu.cc:529-541 | for every C-RNTI and every length of PDU: all bytes of the PDU, the subheader 0x1B or 0x3B by the padding; and the getter returns it after parsing |
| `ControlPdu.SendConResId` | lib/src/common/pdu.cc:542-558 | the same for every identity; subheader 0x1C or 0x3C |
| `ControlPdu.SendPhr` | lib/src/common/pdu.cc:559-570 | the same for every power headroom; subheader 0x1A or 0x3A |
| `ControlPdu.SendTaCmd` | lib/src/common/pdu.cc:572-583 | the same for every timing advance; subheader 0x1D or 0x3D |
| `SchPdu.SameLimitIsNotEnough` | lib/include/srslte/common/pdu.h:85-143 | one SDU and padding, which two subheaders allow to be written, are not found by a reader with room for two |
| `Bsr.BuffSizeTable` | lib/src/common/pdu.cc:764-777 | the search loop returns the index of the table interval in which the size lies |
| `Bsr.IndexIsUnique` | lib/src/common/pdu.cc:764-777 | no two indices stand for the same size |
| `Bsr.ReportNeverUnderstates` | lib/src/common/pdu.cc:409-435 | the decoded size is at least the real one exactly up to 150000 bytes |
| `Bsr.IndexIsMonotone` | lib/src/common/pdu.cc:764-777 | a larger buffer never gets a smaller index |
| `Bsr.LevelsAreMonotone` | lib/src/common/pdu.cc:35-38 | the table never falls |
| `BsrLevels.RatioIs` | lib/src/common/pdu.cc:35-38 | the 61st root of 15000 lies between two decimals ten digits long |
| `BsrLevels.LevelsAreGeometric` | lib/src/common/pdu.cc:35-38 | each level from 10 to 150000 is ten times a power of that root, rounded up, if and only if it is not level 41 |
| `Bsr.SetShort` | lib/src/common/pdu.cc:503-527 | the short format carries the last group with data and the index of its size |
| `Bsr.GetShort` | lib/src/common/pdu.cc:409-435 | the size of that group is decoded into its entry, and every other entry of the caller's array is taken for an index |
| `Bsr.LongFormatRoundTrips` | lib/src/common/pdu.cc:409-417 | the four indices of the long format come back exactly under a stated condition on the second and third |
| `Bsr.LongFormatLosesALevel` | lib/src/common/pdu.cc:503-527 | a concrete size that the long format reports wrongly |
| `Rar.PayloadComesBack` | lib/src/common/pdu.cc:908-932 | the six payload bytes of any in-range response decode to it |
| `Rar.PayloadIsTheNumber` | lib/src/common/pdu.cc:908-920 | the six bytes as one number are eleven bits of timing advance, twenty of grant and sixteen of RNTI, as TS 36.321 section 6.1.5 lays them out |
| `Rar.HeadByteIs` | lib/src/common/pdu.cc:902-906 | the subheader byte of every preamble, in numbers |
| `Rar.ListComesBack` | lib/src/common/pdu.cc:823-846 | reading a written list of responses gives the list back if and only if the reader has room for it, whatever the subheader objects held before |
| `Rar.BackoffSurvives` | lib/src/common/pdu.cc:823-831 | the backoff value that is read is the one set exactly when no response follows or it is zero |
| `Rar.BackoffShiftsPayloads` | lib/src/common/pdu.cc:920-945 | with a backoff indicator in front the reader finds one response more, each with the preamble of the one before; the list read is the list written only if the reader has room for exactly as many responses |
| `Rar.EchoIsReadByAccident` | lib/src/common/pdu.cc:920-945 | in that one case it can be: a concrete response that is read one byte too early and still comes out right |
| `Rar.WritePacket` | lib/src/common/pdu.cc:823-846 | the buffer holds backoff byte, subheaders, payloads and as many zeros as the PDU is long, and nothing else changes |
| `Rar.ReadPacket` | lib/src/common/pdu.cc:920-945 | the loops compute the list that the specification of the reader gives |
| `SBoxes.SInverseUndoesS` | lib/src/common/liblte_security.cc:67-82 | the S-box has a left inverse |
| `SBoxes.SUndoesSInverse` | lib/src/common/liblte_security.cc:67-82 | which is also a right inverse |
| `SBoxes.SQInverseUndoesSQ` | lib/src/common/liblte_security.cc:85-110 | the second S-box has a left inverse |
| `SBoxes.SQUndoesSQInverse` | lib/src/common/liblte_security.cc:85-110 | which is also a right inverse |
| `SBoxes.XTimeDoubles` | lib/src/common/liblte_security.cc:113-128 | the table is multiplication by x modulo the Rijndael polynomial |
| `AlphaField.PowersAdd` | lib/src/common/liblte_security.cc:1689-1694 | multiplying by powers of x adds their exponents |
| `AlphaField.OrderOfX` | lib/src/common/liblte_security.cc:1673-1694 | x to the 255th power is one, for every byte |
| `AlphaField.OverUndoesTimes` | lib/src/common/liblte_security.cc:1705-1726 | dividing by alpha undoes multiplying by it, on every word |
| `AlphaField.TimesUndoesOver` | lib/src/common/liblte_security.cc:1705-1726 | and the other way round |
| `MixColumns.MulXIsLinear` | lib/src/common/liblte_security.cc:1673-1678 | multiplication by x distributes over exclusive or |
| `MixColumns.MixHasOrderFour` | lib/src/common/liblte_security.cc:1737-1810 | the column map applied four times is the identity, for every reduction constant |
| `MixColumns.MixIsMatrixProduct` | lib/src/common/liblte_security.cc:1737-1810 | the column map is the matrix product with rows 2 1 1 3 |
| `Snow3G.S1HasInverse` | lib/src/common/liblte_security.cc:1737-1768 | the 32-bit S-box S1 has an explicit inverse |
| `Snow3G.S2HasInverse` | lib/src/common/liblte_security.cc:1779-1810 | the 32-bit S-box S2 has an explicit inverse |
| `Snow3G.LfsrHasInverse` | lib/src/common/liblte_security.cc:1821-1836 | the register clock with any feedback is undone |
| `Snow3G.FsmHasInverse` | lib/src/common/liblte_security.cc:1847-1858 | the finite state machine clock is undone by inverting S1 and S2 |
| `Snow3G.KeyClockHasInverse` | lib/src/common/liblte_security.cc:1925-1940 | one keystream clock is undone |
| `Snow3G.InitClockHasInverse` | lib/src/common/liblte_security.cc:1897-1900 | one initialisation clock is undone although its feedback is unknown |
| `Snow3G.InitClocksHaveInverse` | lib/src/common/liblte_security.cc:1897-1900 | any number of initialisation clocks is undone |
| `Snow3G.KeyClocksHaveInverse` | lib/src/common/liblte_security.cc:1925-1940 | any number of keystream clocks is undone |
| `Snow3G.LoadIsReadable` | lib/src/common/liblte_security.cc:1869-1896 | key and initialisation vector can be read from the loaded state |
| `Snow3G.StateDeterminesKey` | lib/src/common/liblte_security.cc:1869-1940 | from the state after initialisation and any number of clocks, key and vector are computed back |
| `Snow3G.StatesNeverMerge` | lib/src/common/liblte_security.cc:1869-1940 | different keys or vectors never reach the same state after the same number of clocks |
| `Snow3G.Machine.constructor` | lib/src/common/liblte_security.cc:1869-1901 | the object is in the initialised state of the key and vector |
| `Snow3G.Machine.Load` | lib/src/common/liblte_security.cc:1869-1896 | sets the loaded state |
| `Snow3G.Machine.RunInitialisation` | lib/src/common/liblte_security.cc:1897-1900 | runs exactly thirty-two initialisation clocks |
| `Snow3G.Machine.ClockLfsr` | lib/src/common/liblte_security.cc:1821-1836 | shifts in place to the next register state |
| `Snow3G.Machine.ClockFsm` | lib/src/common/liblte_security.cc:1847-1858 | returns the output and steps the three registers |
| `Snow3G.Machine.GenerateKeystream` | lib/src/common/liblte_security.cc:1925-1940 | fills the array with the keystream words and leaves the state after that many clocks |
| `Snow3GRecurrence.StageStep` | lib/src/common/liblte_security.cc:1821-1858 | stage t + 16 is alpha s_t + s_(t+2) + s_(t+11) / alpha, with the output added in the first 32 steps, and the registers follow their recurrences |
| `Snow3GRecurrence.LoadedIsTheStart` | lib/src/common/liblte_security.cc:1869-1896 | the loaded state is the recurrence at time 0 |
| `Snow3GRecurrence.InitialisationRuns` | lib/src/common/liblte_security.cc:1897-1900 | after initialisation stage i of the register is s_(32+i) and the registers are those of time 32 |
| `Snow3GRecurrence.GeneratorRuns` | lib/src/common/liblte_security.cc:1925-1940 | the same after any number of keystream clocks |
| `Snow3GRecurrence.KeystreamIsTheRecurrence` | lib/src/common/liblte_security.cc:1925-1940 | for every key, vector and length, word j of the keystream is ((s_(t+15) + R1_t) ^ R2_t) ^ s_t at t = 33 + j |
| `Snow3GTestSet.PublishedKeystream` | lib/test/common/test_eea1.cc:41-54 | eight keystream words of the first test set, in numbers |
| `AlphaField.AlphaTables` | lib/src/common/liblte_security.cc:1705-1728 | multiplication and division by alpha as linear maps of the byte that falls out |
| `Eea1.EncryptionIsItsOwnInverse` | lib/src/common/liblte_security.cc:1006-1015 | decrypting an encryption gives the message with the bits past the length cleared, for every positive bit length |
| `Eea1.EncryptionIsPrefixStable` | lib/src/common/liblte_security.cc:924-994 | a shorter encryption is the prefix of a longer one, its last byte masked |
| `Eea1TestSet.PublishedCiphertext` | lib/test/common/test_eea1.cc:41-66 | the 253 bits of ciphertext of the first test set, in numbers |
| `Eea1.ContextsNeverCollide` | lib/src/common/liblte_security.cc:944-968 | two calls share a generator state after the same number of clocks if and only if key, count, five bearer bits and the direction bit agree |
| `Eea1.KeyWordsAreInjective` | lib/src/common/liblte_security.cc:948-954 | the byte order in which the key becomes words loses nothing |
| `Eea1.HeaderIsInjective` | lib/src/common/liblte_security.cc:956-960 | the vector word determines five bearer bits and the direction bit |
| `Eea1.ZeroTailingBits` | lib/src/common/liblte_security.cc:1659-1662 | clears the unused bits of the last byte and nothing else |
| `Eea1.Encrypt` | lib/src/common/liblte_security.cc:924-994 | fails exactly on a null pointer; else the output is the encryption, also when it is the message buffer, and no byte behind it changes |
| `Eea1.CombineWords` | lib/src/common/liblte_security.cc:970-976 | the loop over whole words produces each of its bytes once |
| `Eea1.CombineLastBytes` | lib/src/common/liblte_security.cc:978-981 | the loop over the last bytes produces the rest |
| `Rijndael.MixColumnIsMix` | lib/src/common/liblte_security.cc:1626-1650 | the in-place column formula is the column map with the Rijndael polynomial, columns read from the other end |
| `Rijndael.MixColumnIsFipsProduct` | lib/src/common/liblte_security.cc:1626-1650 | it is the matrix product of FIPS 197 section 5.1.3 |
| `Rijndael.MixColumnHasOrderFour` | lib/src/common/liblte_security.cc:1626-1650 | four applications are the identity |
| `Rijndael.StepsHaveInverses` | lib/src/common/liblte_security.cc:1548-1650 | each of the four steps is undone, in both orders |
| `Rijndael.RoundHasInverse` | lib/src/common/liblte_security.cc:1505-1539 | a round and the last round are undone under any round key |
| `Rijndael.RoundsHaveInverse` | lib/src/common/liblte_security.cc:1505-1539 | any number of rounds is undone |
| `Rijndael.UnroundsHaveInverse` | lib/src/common/liblte_security.cc:1505-1539 | and undoing is itself undone |
| `Rijndael.EncryptIsAPermutation` | lib/src/common/liblte_security.cc:1505-1539 | the ten rounds are a permutation of blocks with an explicit inverse, for every key |
| `Rijndael.NextKeyHasInverse` | lib/src/common/liblte_security.cc:1464-1496 | one round of the key schedule is undone |
| `Rijndael.RoundKeyDeterminesKey` | lib/src/common/liblte_security.cc:1464-1496 | every round key determines the cipher key |
| `Rijndael.RoundKeyIsFipsExpansion` | lib/src/common/liblte_security.cc:1464-1496 | round key i is words 4 i to 4 i + 3 of the recurrence of FIPS 197 section 5.2, with the rotated S-box byte by byte and a power of x |
| `Rijndael.RoundConstantIsAPower` | lib/src/common/liblte_security.cc:1477-1494 | the round constant of round i is x to the power i - 1 in the field |
| `SBoxField.SIsAffineOfInverse` | lib/src/common/liblte_security.cc:67-82 | S(x) is the affine image of y if and only if y is the field inverse of x, or both are zero |
| `SBoxField.NoZeroDivisors` | lib/src/common/liblte_security.cc:67-82 | a product in the field is zero only with a zero factor |
| `RijndaelTestSet.PublishedBlock` | lib/src/common/liblte_security.cc:1464-1539 | key, plaintext and ciphertext of FIPS 197 appendix B, in numbers |
| `RijndaelTestSet.PublishedBytes` | lib/src/common/liblte_security.cc:1505-1539 | the same from byte arrays |
| `RijndaelMachine.KeyAdd` | lib/src/common/liblte_security.cc:1548-1562 | adds the round key to the state array |
| `RijndaelMachine.ByteSub` | lib/src/common/liblte_security.cc:1571-1583 | substitutes every byte of the state array |
| `RijndaelMachine.ShiftRow` | lib/src/common/liblte_security.cc:1592-1617 | the swaps with one temporary rotate each row by its number |
| `RijndaelMachine.MixColumn` | lib/src/common/liblte_security.cc:1626-1650 | mixes every column although it overwrites bytes it still needs |
| `RijndaelMachine.Encrypt` | lib/src/common/liblte_security.cc:1505-1539 | the output array holds the encryption of the input |
| `RijndaelMachine.KeySchedule` | lib/src/common/liblte_security.cc:1464-1496 | the array holds the eleven round keys of the key |
| `RijndaelMachine.EncryptIsInjectiveOnBytes` | lib/src/common/liblte_security.cc:1505-1539 | under the same round keys, two byte blocks encrypt to the same block if and only if they are equal |
| `Cmac.BytesDouble` | lib/src/common/liblte_security.cc:720-740 | doubling byte by byte is doubling of the 128-bit value in the field of RFC 4493 section 2.3 |
| `Cmac.FormsAgree` | lib/src/common/liblte_security.cc:742-784 | the code of a byte message equals that of its bit expansion |
| `Cmac.PackAfterBytes` | lib/src/common/liblte_security.cc:854-869 | packing bits behind whole bytes leaves the bytes alone |
| `Eia2.OverloadsAgree` | lib/src/common/liblte_security.cc:690-911 | both overloads give the same code whenever the bit message is the expansion of the byte message |
| `Eia2.HeaderIsTheLayout` | lib/src/common/liblte_security.cc:742-748 | the header is the 32 bits of COUNT, five of BEARER, one of DIRECTION and 26 zeros if and only if no higher bit of the direction falls on a clear bit of the bearer; so always for a direction below 2 |
| `Eia2.DirectionIsNotMasked` | lib/src/common/liblte_security.cc:748 | a direction keeps that layout with every bearer if and only if its bits 1 to 5 are clear; a larger one gives the header of another bearer |
| `Eia2.MacIsOfTheLayout` | lib/src/common/liblte_security.cc:690-911 | with such a direction both codes are the first four bytes of the CMAC of the standard's bit string |
| `Eia2Examples.EightBytes` | lib/src/common/liblte_security.cc:690-795 | the code in numbers, under one simple cipher, of every eight bytes that end in given ones: a whole block with the first subkey |
| `Eia2Examples.FiftyEightBits` | lib/src/common/liblte_security.cc:796-911 | the same for 58 bits: padded, with the second subkey |
| `Eia2Examples.TwentyFourBytes` | lib/src/common/liblte_security.cc:690-795 | the same for 24 bytes: two blocks in a chain |
| `Eia2.Subkey` | lib/src/common/liblte_security.cc:720-740 | the loop computes the subkey of RFC 4493 section 2.3 |
| `Eia2.PadPosition` | lib/src/common/liblte_security.cc:768-778 | the pad arithmetic points to the bit right behind the message |
| `Eia2.PadBuffer` | lib/src/common/liblte_security.cc:768-778 | setting that one bit turns the buffer into the message padded as RFC 4493 section 2.4 asks, and leaves the earlier blocks alone |
| `Eia2.Generate` | lib/src/common/liblte_security.cc:754-784 | the block loop over the prepared buffer computes the message authentication code of the bits |
| `Eia2.ByteMac` | lib/src/common/liblte_security.cc:690-795 | fails exactly on a null pointer; else the four bytes are those of AES-CMAC of header and message |
| `Eia2.BitMac` | lib/src/common/liblte_security.cc:796-911 | the same for a bit message of any length |
| `Eia2.FillBits` | lib/src/common/liblte_security.cc:847-869 | collecting bits into bytes leaves the expansion of header and message in the buffer |
| `NetworkName.KeptAll` | lib/src/asn1/liblte_mme.cc:2237-2246 | nothing is left out exactly when every character is supported |
| `NetworkName.CharacterIsKept` | lib/src/asn1/liblte_mme.cc:2237-2246 | a character is packed if and only if it is a line end, one of the characters from blank to question mark, or a letter |
| `NetworkName.ExampleName` | lib/src/asn1/liblte_mme.cc:2223-2313 | the octets of the name srsLTE, in numbers |
| `NetworkName.PackingKeepsTheNumber` | lib/src/asn1/liblte_mme.cc:2223-2313 | the octets as a number in base 256 equal the septets as a number in base 128 |
| `NetworkName.BitsStayInPlace` | lib/src/asn1/liblte_mme.cc:2223-2313 | bit b of character i is bit 7i+b of the octets, and the spare bits are clear |
| `NetworkName.PackedLength` | lib/src/asn1/liblte_mme.cc:2298-2307 | as many octets as the bits need |
| `NetworkName.CarryFits` | lib/src/asn1/liblte_mme.cc:2248-2294 | in every case of the switch the octet and the carry give the septet back and keep the pending bits |
| `NetworkName.SeptetsComeBack` | lib/src/asn1/liblte_mme.cc:2336-2424 | from any point of the octets on the reader finds exactly the septets to come, the one in the last octet included |
| `NetworkName.NameComesBack` | lib/src/asn1/liblte_mme.cc:2314-2440 | the supported characters, the flag and the cursor come back exactly when there is a supported character |
| `NetworkName.WholeNameComesBack` | lib/src/asn1/liblte_mme.cc:2223-2440 | the name itself comes back exactly when it is not empty and wholly supported |
| `NetworkName.PutSeptet` | lib/src/asn1/liblte_mme.cc:2248-2294 | one case of the switch writes the octet and the carry |
| `NetworkName.PutCharacter` | lib/src/asn1/liblte_mme.cc:2237-2297 | one supported character keeps the packed octets, the pending bits and the rest of the buffer as the loop needs them |
| `NetworkName.Pack` | lib/src/asn1/liblte_mme.cc:2223-2313 | the buffer holds the encoding, nothing else changes, and the cursor is behind it |
| `NetworkName.Unpack` | lib/src/asn1/liblte_mme.cc:2314-2440 | the loop with its special last septet computes what the specification of the reader gives |
| `NetworkName.TakeSeptets` | lib/src/asn1/liblte_mme.cc:2336-2401 | the loop over all octets but the last reads what the specification of the reader gives |
| `AccessPointName.LabelsComeBack` | lib/src/asn1/liblte_mme.cc:3810-3848 | reading labels from any label start on rebuilds the rest of the name |
| `AccessPointName.NameComesBack` | lib/src/asn1/liblte_mme.cc:3770-3848 | every name under the string length comes back, whatever its dots, and the labels fill the length octet exactly |
| `AccessPointName.NameIsPackedByLabels` | lib/src/asn1/liblte_mme.cc:3770-3809 | every list of labels joined by dots is packed as the labels of RFC 1035 section 3.1, each behind its length |
| `AccessPointName.ExampleName` | lib/src/asn1/liblte_mme.cc:3770-3809 | the octets of a name with one dot, in numbers |
| `AccessPointName.LengthPatched` | lib/src/asn1/liblte_mme.cc:3794-3802 | patching a length into the slot of the previous dot closes that label and keeps the others |
| `AccessPointName.Pack` | lib/src/asn1/liblte_mme.cc:3770-3809 | the buffer holds the encoding, nothing else changes, and the cursor is behind it |
| `AccessPointName.Unpack` | lib/src/asn1/liblte_mme.cc:3810-3848 | the string array holds the name that the element stands for, terminated unless full |
| `AccessPointName.PackAndUnpack` | lib/src/asn1/liblte_mme.cc:3770-3848 | packing and unpacking gives the name back and both cursors agree |
| `LengthPrefixed.UntilComesBack` | lib/src/asn1/liblte_mme.cc:4525-4535 | a list read up to an index comes back whole when the index lies within the last item, even if the guard stops early |
| `LengthPrefixed.CountComesBack` | lib/src/asn1/liblte_mme.cc:4860-4877 | a list read by its count comes back whole |
| `LengthPrefixed.UntilStopsInTime` | lib/src/asn1/liblte_mme.cc:4525-4535 | what is read ends before the index plus the largest item |
| `LengthPrefixed.UntilFitsExactly` | lib/src/asn1/liblte_mme.cc:4525-4535 | a walk over the received octets tells exactly whether the list read up to an index fits a given number of items of a given size |
| `LengthPrefixed.CountFitsExactly` | lib/src/asn1/liblte_mme.cc:4860-4877 | the same for a counted list |
| `LengthPrefixed.FewItems` | lib/src/asn1/liblte_mme.cc:4525-4535 | how many items an element of a given length can have at most |
| `LengthPrefixed.Append` | lib/src/asn1/liblte_mme.cc:4495-4504 | the nested loops write the items behind each other and change nothing else |
| `LengthPrefixed.TakeUntil` | lib/src/asn1/liblte_mme.cc:4525-4535 | the loop up to an index reads what the specification gives |
| `LengthPrefixed.TakeCount` | lib/src/asn1/liblte_mme.cc:4860-4877 | the counted loop reads what the specification gives |
| `ProtocolConfigOptions.OptionsComeBack` | lib/src/asn1/liblte_mme.cc:4482-4542 | any list of options comes back exactly when its length fits the octet, and the cursors agree exactly then |
| `ProtocolConfigOptions.ExampleOptions` | lib/src/asn1/liblte_mme.cc:4482-4512 | the octets of two options, in numbers |
| `ProtocolConfigOptions.ReceivedFitsExactly` | lib/src/asn1/liblte_mme.cc:4513-4542 | unpacking stays within the 83 options of 248 octets exactly for the received octets that announce no more |
| `ProtocolConfigOptions.ShortElementsFit` | lib/src/asn1/liblte_mme.cc:4525-4535 | up to a length octet of 251 there are never too many options |
| `ProtocolConfigOptions.TooManyEmptyOptions` | lib/src/asn1/liblte_mme.cc:4525-4535 | 84 empty options fit an element and not the structure |
| `ProtocolConfigOptions.Pack` | lib/src/asn1/liblte_mme.cc:4482-4512 | the buffer holds the encoding with the wrapped length octet, nothing else changes |
| `ProtocolConfigOptions.Unpack` | lib/src/asn1/liblte_mme.cc:4513-4542 | computes what the specification of the reader gives |
| `TrafficFlowTemplate.DecodedTemplate` | lib/src/asn1/liblte_mme.cc:4842-4903 | what unpacking makes of a packed template, given what the structure held before |
| `TrafficFlowTemplate.TemplateComesBack` | lib/src/asn1/liblte_mme.cc:4783-4903 | a template comes back exactly when its length fits, no identity is cut and the fields left alone were right |
| `TrafficFlowTemplate.ExampleTemplate` | lib/src/asn1/liblte_mme.cc:4783-4841 | the octets of a template with a filter and a parameter, in numbers |
| `TrafficFlowTemplate.ExampleDeletion` | lib/src/asn1/liblte_mme.cc:4803-4820 | the octets of the same filter when it is deleted, and under the operation before |
| `TrafficFlowTemplate.ReceivedFitsExactly` | lib/src/asn1/liblte_mme.cc:4842-4903 | unpacking stays within the filters and parameters of 20 octets exactly for the received octets that announce no more |
| `TrafficFlowTemplate.FiltersRoundTrip` | lib/src/asn1/liblte_mme.cc:4803-4820 | full filters come back exactly when their identities have four bits |
| `TrafficFlowTemplate.TagsRoundTrip` | lib/src/asn1/liblte_mme.cc:4860-4866 | under the delete operation only direction and identity come back |
| `TrafficFlowTemplate.Pack` | lib/src/asn1/liblte_mme.cc:4783-4841 | the buffer holds the encoding for every operation code, nothing else changes |
| `TrafficFlowTemplate.Unpack` | lib/src/asn1/liblte_mme.cc:4842-4903 | computes what the specification of the reader gives |
| `PdnConnectivityRequest.OptionsOnward` | lib/src/asn1/liblte_mme.cc:10990-11008 | options and device properties are read back exactly under their part of the condition |
| `PdnConnectivityRequest.ApnOnward` | lib/src/asn1/liblte_mme.cc:10980-11008 | the same with the access point name in front |
| `PdnConnectivityRequest.EsmOnward` | lib/src/asn1/liblte_mme.cc:10970-11008 | the same with the transfer flag in front |
| `PdnConnectivityRequest.RequestComesBack` | lib/src/asn1/liblte_mme.cc:10878-11014 | for every combination of optional elements the message comes back exactly when the options fit and the octet behind it is not the identifier of an absent trailing element |
| `PdnConnectivityRequest.RequestStarts` | lib/src/asn1/liblte_mme.cc:10878-10905 | every request starts with discriminator 2, the transaction, message type 208 and the two types |
| `PdnConnectivityRequest.ExampleRequest` | lib/src/asn1/liblte_mme.cc:10878-10944 | the octets of a request with every optional element, in numbers |
| `PdnConnectivityRequest.TrailingOctetIsTaken` | lib/src/asn1/liblte_mme.cc:10980-10988 | a concrete buffer in which a request without elements is read as one with a name |
| `PdnConnectivityRequest.Pack` | lib/src/asn1/liblte_mme.cc:10878-10944 | the buffer holds the message, nothing else changes, and the count is its length |
| `PdnConnectivityRequest.Unpack` | lib/src/asn1/liblte_mme.cc:10945-11014 | computes what the specification of the reader gives |
| `PdnConnectivityRequest.PackAndUnpack` | lib/src/asn1/liblte_mme.cc:10878-11014 | packing into a buffer and unpacking from it gives the message back exactly under that condition on the octet that was in the buffer before |
| `BitPacking.BitsOfValue` | lib/src/asn1/liblte_common.cc:62-93 | the value of the bits of a number is the number modulo a power of two |
| `BitPacking.ValueOfBits` | lib/src/asn1/liblte_common.cc:62-93 | the bits of the value of a bit string are the string |
| `BitPacking.ValueBitAt` | lib/src/asn1/liblte_common.cc:62-73 | the bit at each position is the shifted and masked one |
| `BitPacking.Value2Bits` | lib/src/asn1/liblte_common.cc:62-73 | writes the bits and moves the cursor behind them |
| `BitPacking.Bits2Value` | lib/src/asn1/liblte_common.cc:80-93 | reads the value of the bits and moves the cursor behind them |
| `BitPacking.PackUndoesUnpack` | lib/src/asn1/liblte_common.cc:100-170 | packing the bits of bytes gives the bytes, for every length |
| `BitPacking.UnpackOfPack` | lib/src/asn1/liblte_common.cc:100-170 | unpacking packed bits gives the whole-byte prefix and the rest behind zeros |
| `BitPacking.UnpackUndoesPackOnWholeBytes` | lib/src/asn1/liblte_common.cc:100-170 | the bits themselves come back exactly when their number is a multiple of eight |
| `BitPacking.PackedAreBytes` | lib/src/asn1/liblte_common.cc:141-155 | every packed value of a bit array is a byte |
| `BitPacking.UnpackedAreBits` | lib/src/asn1/liblte_common.cc:161-170 | every unpacked value is a bit |
| `BitPacking.Pack` | lib/src/asn1/liblte_common.cc:141-155 | the loop computes the packed bytes, each below 256, and leaves the entries behind them alone |
| `BitPacking.Unpack` | lib/src/asn1/liblte_common.cc:161-170 | the loop computes the unpacked bits, all of them 0 or 1, and leaves the entries behind them alone |
| `LoggerFile.StepKeepsDiscipline` | lib/src/common/logger_file.cc:43-126 | every step of every thread keeps who runs, who holds the mutex and what the consumer may assume |
| `LoggerFile.StepConserves` | lib/src/common/logger_file.cc:78-126 | every step keeps messages out plus messages queued equal to messages pushed, in order |
| `LoggerFile.StepKeepsOrder` | lib/src/common/logger_file.cc:92-113 | every step keeps the files in ascending order and drops nothing before the first file that did not open |
| `LoggerFile.StepKeepsSizes` | lib/src/common/logger_file.cc:99-113 | every step keeps the counter equal to the size of the current file and every earlier file exactly full |
| `LoggerFile.FilesHoldThePrefix` | lib/src/common/logger_file.cc:92-126 | the files one after the other hold the messages up to the first dropped one |
| `LoggerFile.NothingIsLost` | lib/src/common/logger_file.cc:43-126 | in every state of every interleaving, files and queue hold exactly what was pushed while files open, and always a prefix |
| `LoggerFile.DestructorWritesEverything` | lib/src/common/logger_file.cc:43-58 | when the destructor has finished, every message was written exactly once, in order |
| `LoggerFile.FilesAreExactlyFull` | lib/src/common/logger_file.cc:99-113 | a file is replaced exactly when a message takes it to the limit |
| `LoggerFile.ShutdownExactly` | lib/src/common/logger_file.cc:43-91 | once the flag is cleared the destructor can finish on its own if and only if the consumer is not about to sleep, or asleep without a signal, on an empty queue |
| `LoggerFile.ShutdownFromStop` | lib/src/common/logger_file.cc:43-91 | from any reachable state in which the destructor clears the flag and signals: it can finish on its own unless the consumer has already passed its test of the flag and is about to take the mutex with the queue empty, and exactly then not; when it can, every schedule reaches the end, in at most seven steps more than there are messages |
| `LoggerFile.EveryRunCloses` | lib/src/common/logger_file.cc:43-126 | in a shutdown that is not stuck no schedule runs on for ever or stops before the end |
| `LoggerFile.ClosingMessageIsPushed` | lib/src/common/logger_file.cc:43-46 | once the destructor has begun, the closing message is among those pushed |
| `LoggerFile.SignalCanBeMissed` | lib/src/common/logger_file.cc:45-91 | such a state is reachable |

## Left out

- The other subclasses of the PDU: multicast PDUs and multicast scheduling elements, which charge one header per entry.
- SchPdu.Pdu.SetCe: only control elements that `sizeof_ce` knows in the direction of the PDU; one of the other direction would be written without its bytes.
- SchPdu.Pdu.SetCRnti: for that reason only in an uplink PDU.
- SchPdu.Pdu.SetPhr: the same, and the power headroom is a real number, without the rounding of single precision.
- SchPdu.Pdu.SetConResId: only in a downlink PDU.
- SchPdu.Pdu.SetTaCmd: the same.
- SchPdu.Pdu.SetSdu: a second SDU in a subheader that was filled before is excluded; the code would charge for both.
- SchPdu.Pdu.SetSduFrom: the same, and what the interface wrote beyond the bytes it was given is not modelled.
- SchPdu.WriteAndParse: SDUs of 32768 bytes and more are excluded, since their size does not fit the length field.
- Eea1.Encrypt: message lengths within 31 bits of the 32-bit limit, where the word count overflows, are excluded, and so is the length zero, where the code writes in front of its buffer.
- Eia2.ByteMac: lengths beyond 2 to the 24th are excluded, where the single-precision ceiling of the code is no longer exact.
- Eia2.BitMac: the same bound on the number of bits, and the entries of the message are 0 or 1.
- EEA2, the key derivations with SHA-256, the library's AES and the Milenage functions.
- NetworkName.Pack: the ors of bits that cannot overlap are written as sums.
- ProtocolConfigOptions.Unpack: gives the options as a sequence; what the code does to the memory behind the structure, when the received element does not fit it, is not modelled.
- TrafficFlowTemplate.Unpack: the same for filters and parameters.
- PdnConnectivityRequest.RequestComesBack: bearer, request type and PDN type are taken within the bits the standard gives them.
- The other NAS messages and the elements with a fixed layout: many, and each one easy.
- LoggerFile.NothingIsLost: output errors of a file that has opened, and producers that are still running while the destructor flushes, are not modelled.
- LoggerFile.ShutdownFromStop: its runs have no producer that goes on pushing and no spurious wakeup; either could end a wait that is otherwise for ever.
- Alignment helpers, printing, packet capture, radio and configuration code.
