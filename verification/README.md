# A verified model of the rtw88 driver core

rtw88 drives Realtek's 802.11n/ac wireless chips. Most of it programs registers; some of it computes. This
project models the parts that compute, keep state or follow a protocol, and proves what they are for. Every
file is one module and stands for one component:

| file | component |
|---|---|
| PhyTable.dfy | the conditional PHY table interpreter: a flat stream of tiles, two flags, one remembered condition |
| Efuse.dfy | the efuse log decoder, and the serialisation it inverts |
| Mailbox.dfy | the four-box H2C mailbox, driver and firmware running concurrently |
| PowerSave.dfy | leisure power save and bluetooth coexistence, which call each other |
| TxLimit.dfy | tx power limit tables: loading, worldwide minimum, fallback domains, HT/VHT cross-reference |
| TxNormalise.dfy | by-rate offsets and limits made relative to a base, and the selection of a limit |
| Dig.dfy | the dynamic initial gain loop with its history, trend bitmap and damping |
| RsvdImage.dfy | the reserved-page image, assigned in one pass and copied in another |
| FifoLayout.dfy | the 16-bit layout of the FIFO's reserved pages |
| RsvdList.dfy | who owns a reserved page, over adds, removals and rebuilds |
| Ids.dfy | MAC ids and ports, over interface and station changes and firmware recovery |
| RegMask.dfy | masked reads and writes of 32-bit registers |
| PortSwitch.dfy | the register swap that gives an access point hardware port 0 |
| CoexLimiter.dfy | the coexistence limiter that saves and restores tx registers |
| ScanList.dfy | the scan channel list |
| FwDownload.dfy | the two firmware download paths |
| Quotients.dfy | quotients and remainders, for those that need them |

Code that changes state in place is a class with methods whose contracts give the whole new state as a function of
the old one; the theorems are lemmas about those functions, over all inputs and all runs. A C integer whose width
matters wraps explicitly.

## Where the code does less than expected

Some properties one would expect do not hold of the code. The model keeps the code as it is, and a lemma says
exactly when the property holds:

- Inside one table array, a block without its ENDIF decides about the tiles behind it (`PhyTable.SafeOnAllHardwareIff`,
  `PhyTable.OpenBlockDecides`). Tables loaded by separate calls never affect each other (`PhyTable.LoadTwo`).
- LPS can be entered although coex has just demanded it off (`PowerSave.EnteredAgainstCoexIff`,
  `PowerSave.EnterAgainstCoex`); not on the 8812A, which has no TDMA cases (`PowerSave.EmptyTableNeverForces`).
- The worldwide limit need not be the least: a row for the worldwide domain may raise it
  (`TxLimit.WorldwideIsMinimumIff`, `TxLimit.WorldwideRowCanRaise`), and so may the 5 GHz cross-reference
  (`TxLimit.WorldwideLeastAfterXrefIff`, `TxLimit.XrefCanLift`).
- On RF paths other than A normalisation can change the resulting power (`TxNormalise.OtherPathPreservedIff`,
  `TxNormalise.OtherPathLoses`). The cap on selected limits is harmless unless a base is negative
  (`TxNormalise.CapNotRelativeIff`), which valid BCD tables rule out (`TxNormalise.BcdIsNotNegative`).
- While stations are counted but none is iterated over, because the stack does not iterate over a new one yet or
  because collecting them ran out of memory, the gain bounds cross (`Dig.BoundsCrossIff`,
  `Dig.UniteratedStationCrosses`). The gain stays usable (`Dig.GainStaysUsable`).
- After beacon loss the gain register differs from the recorded gain and may stay so (`Dig.RegisterDisplacedIff`,
  `Dig.OneLossSticks`).
- The reserved-page counter is one byte, and an image of more than 255 pages would be copied past its buffer
  (`RsvdImage.CounterExactIff`, `RsvdImage.CopiesInsideIff`); the lists that interfaces make are far shorter.
- A chip whose reserved regions sum to more than 16 bits would get an accepted layout with overlapping regions
  (`FifoLayout.TiledIff`, `FifoLayout.OverflowIsAccepted`); no chip in the tree comes near.
- Re-adding an interface after a restart leaks the pages it had (`RsvdList.LeakKeepsOk`).
- An interface that cannot be added keeps its MAC id marked, also across recovery (`Ids.LosesNoneIff`,
  `Ids.OnePortShort`, `Ids.RecoveryEmptiesMaps`). The combinations of interfaces that the driver advertises
  (main.c:107-126) keep the stack from trying.
- The limiter does not save two of the fields it writes, and re-initialisation while a limit is on forgets the
  originals (`CoexLimiter.LifetimeRestoredIff`, `CoexLimiter.ReinitialisationKeepsIff`); chips without scoreboard,
  such as the 8812A (rtw8812a.c:1103), are not limited at all (`CoexLimiter.NoScoreboardNoChange`).
- Scan timeouts above 255 are cut to a byte (`ScanList.RoundTripIff`, `ScanList.LongDurationCut`).
- Legacy firmware of more than eight pages overwrites its own beginning (`FwDownload.PayloadInPlaceIff`).

## What is assumed of the surroundings

- Efuse: the decoder looks one byte past its limit (efuse.c:52-56). When no bytes are protected, as on the 8812A
  (rtw8812a.c:1061), that byte is whatever memory holds behind the physical map; it is a parameter. The logical
  size is even, as on all chips.
- Mailbox: the firmware sees a box as busy once its main word is written, drains the boxes in rotation starting with
  box 0, and restarts together with the driver's counter at a firmware download. The mutex held by the senders makes
  them one sender.
- Power save: on USB the deep power save calls are empty (usb.c:1040-1048). Which TDMA cases an individual coex
  action asks for is a parameter, except for native LPS.
- Dig: the lowest gain of a chip lies between 2 and 0x40, as on all chips. Kernels differ in which bound clamp_t
  looks at first; which of them is used is a parameter.
- Reserved pages: the page size exceeds the TX descriptor and, for the download's count, is a power of two.
- Ids: the stack above adds what is not there, removes what is, and removes stations before their interface.
- Register polling outcomes, allocation outcomes and the order of list iteration are parameters, and the claims
  hold for all of them.

## Model

| member | source | states |
|---|---|---|
| PhyTable.TileRoundTrip | main.h:1997-2042 | The bit layout of a table tile: every tile is read back from its two words, and an entry is if and only if its address leaves the two control bits clear. |
| PhyTable.CondRoundTrip | main.h:1997-2042 | Every condition field survives being packed into the two words of an IF or ELIF tile. |
| PhyTable.WordsByNumber | main.h:1997-2042 | The tiles of given hexadecimal words, with cut, package, interface, rfe and the four amplifier types in their places. |
| PhyTable.AmplifierBits | phy.c:1171-1190 | On 8812A and 8821A, running a one-arm block: bit 0 of the condition's rfe asks for that bit in the hardware's and for its 2 GHz LNA type, bit 1 for the 2 GHz PA, bit 2 for the 5 GHz LNA, bit 3 for the 5 GHz PA, whatever the other types are. |
| PhyTable.AmplifierBitsTogether | phy.c:1171-1190 | The same for every combination of bits, the upper rfe bits as required by the code; with the low four clear nothing is asked. |
| PhyTable.OtherChipsCompareType | phy.c:1191-1194 | On all other chips a one-arm block applies if and only if the rfe types are equal. |
| PhyTable.CutPackageInterface | phy.c:1163-1170 | A cut, package or interface that is asked for and differs applies nothing; otherwise it is as good as zero. |
| PhyTable.ExternalLnaTakesElif | rtw8812a_table.c:125-192 | The first words of the 8812A's AGC table on hardware with a 2 GHz LNA of type 5: the ELIF arm is taken, not the IF arm. |
| PhyTable.TestAlone | phy.c:1199-1242 | A test without an IF before it applies what follows on 8812A and 8821A, and on other chips for rfe type 0 only. |
| PhyTable.PhyDevice.ParseTblPhyCond | phy.c:1199-1242 | The loop over word pairs with its two flags and remembered condition appends to the written registers exactly what the tile-by-tile machine applies; a trailing odd word is ignored. |
| PhyTable.RunConcat | phy.c:1199-1242 | Running a concatenation of streams is running the second from where the first stopped. |
| PhyTable.RunArm | phy.c:1156-1242 | One IF or ELIF arm applies its body exactly when no earlier arm was taken and its condition holds of the hardware, and remembers that an arm was taken. |
| PhyTable.RunArms | phy.c:1199-1242 | A chain of arms, entered with no arm taken, applies the body of the first one that holds; entered after a taken arm it applies nothing. |
| PhyTable.RunOtherwise | phy.c:1199-1242 | An optional ELSE and the ENDIF apply the ELSE body exactly when no arm was taken, and leave both flags neutral. |
| PhyTable.RunItem | phy.c:1199-1242 | A plain entry or a whole block contributes its meaning and ends neutral. |
| PhyTable.InterpreterCorrect | phy.c:1199-1242 | For every table of plain entries and flat blocks, the one-pass interpreter applies exactly the plain entries and, per block, the body of the first arm that holds or else the ELSE body, in order. |
| PhyTable.SafeOnAllHardwareIff | phy.c:1199-1242 | Within one array, a stream may be followed by any well-formed table, on all hardware, without changing that table's meaning, if and only if every test tile in it is followed by an ENDIF tile. |
| PhyTable.OpenBlockDecides | phy.c:1199-1242 | A stream on which it fails: an IF and its test alone, on matching hardware, switch off the first block behind them. |
| PhyTable.LoadTwo | phy.c:1199-1206 | Every call starts afresh: after any array whatever, cut off inside a block or not, a separately loaded well-formed table applies its meaning. |
| PhyTable.LoadingIsCompositional | phy.c:1199-1242 | Running two well-formed tables as one array is running them one after another. |
| PhyTable.WordsRoundTrip | main.h:1997-2042 | A stream is read back from its words if and only if no entry address uses the control bits. |
| PhyTable.WordTableCorrect | phy.c:1156-1242 | From words to effect: the words of a well-formed table, interpreted on given hardware, apply the meaning of its blocks. |
| Efuse.DumpWords | efuse.c:70-82 | The word loop stores the enabled words of one record, fails on the two limit checks, and changes nothing else; the logical map is the old one with the decoded writes applied in order. |
| Efuse.DumpRecord | efuse.c:53-82 | One record: the header form decides where its words begin, and its words are stored in order. |
| Efuse.DumpLogicalMap | efuse.c:40-85 | On any physical map and limit up to its size, whatever the byte behind it, the decoder terminates, returns whether the log is well formed, and leaves the logical map equal to the old one with the decoded writes applied in order, up to a failure. |
| Efuse.DecodeInRange | efuse.c:40-85 | Whatever the physical map holds, every write lies inside the logical map. |
| Efuse.LastWriterWins | efuse.c:40-85 | A byte of the logical map is the data of the last decoded word that addresses it. |
| Efuse.UntouchedByte | efuse.c:40-85 | A byte addressed by no decoded word keeps its initial value. |
| Efuse.HeaderRoundTrip | efuse.c:20-38 | One- and two-byte headers name their block and word enables, and no header of a record with an enabled word can be taken for the end mark. |
| Efuse.HeadersByNumber | efuse.c:20-38 | Block, words and size of given headers of both forms, and which are not valid. |
| Efuse.OneWordByNumber | efuse.c:70-83 | Where the two bytes of a one-word record go, for each of the four words, and exactly when they are refused. |
| Efuse.TwoWordsByNumber | efuse.c:70-83 | Words 0 and 2 of a record: the data follow one another and go four bytes apart. |
| Efuse.OneWordLog | efuse.c:40-86 | A log of one one-word record: the one write it makes, and it fails if and only if the data pass the limit or their place the logical map. |
| Efuse.OneWordMap | efuse.c:78-80 | What its one write does to the map: the first data byte goes to the lower place, and nothing else changes. |
| Efuse.RecordRoundTrip | efuse.c:52-83 | A serialised record decodes to its own overlay and to the position right behind it. |
| Efuse.RoundTrip | efuse.c:40-85 | For every list of records that fits the limit and is followed by the limit or 0xff, decoding the serialisation succeeds with exactly those records overlaid in order, whatever follows. |
| Efuse.RecordsDecodeToTheirOverlay | efuse.c:146-187 | Over a map of 0xff, the logical map read back is the blank map with the records overlaid. |
| Efuse.HeaderFormIrrelevant | efuse.c:58-68 | Two logs of the same records, each with its own choice of header forms, limit and tail, decode to the same writes. |
| Mailbox.DrainKeepsInv | fw.c:431-445 | A firmware step takes the oldest pending command whole; the busy boxes stay one cyclic window ending just before the box to be written next. |
| Mailbox.WriteMainKeepsInv | fw.c:441-445 | Handing a box over extends the window by the command just written, its extension word included. |
| Mailbox.WriteExKeepsInv | fw.c:441-442 | Writing an extension word touches no pending command. |
| Mailbox.StepKeepsInv | fw.c:396-501 | Every step of the sender or the firmware keeps the window, the agreement of both rotations, and that what was handed over is what was received followed by what is pending. |
| Mailbox.RunKeepsInv | fw.c:396-501 | Every interleaving of sender and firmware steps keeps that invariant. |
| Mailbox.EveryRunIsSafe | fw.c:396-501 | In every run from a firmware download the firmware has received a prefix of the commands handed over, whole and in order; at most four are pending, in a cyclic window of busy boxes just before the next box; a box about to be written is never busy. |
| Mailbox.FourDrainsSuffice | fw.c:396-501 | Four firmware steps without interference deliver everything that was handed over. |
| Mailbox.TimedOutSendChangesNothing | fw.c:431-439 | A send that gives up polling is indistinguishable from the firmware's own steps alone. |
| Mailbox.BusyIffFull | fw.c:431-433 | In every run the box a sender polls is busy if and only if four commands are pending, and a firmware step takes one. |
| Mailbox.H2cDriver.Send | fw.c:396-501 | The sender's code is a run of the state machine; it succeeds if and only if there is a poll and fewer than four commands were pending or the firmware takes one before some poll. A success hands over exactly its command and advances the rotation, a timeout changes neither. |
| Mailbox.H2cDriver.WaitForBox | fw.c:431-433 | The polling loop finds the box free under exactly that condition, with nothing changed but firmware progress. |
| Mailbox.H2cDriver.FirmwareDownloaded | mac.c:817-821 | A firmware download restarts the rotation in the fresh state from which the run claims start. |
| PowerSave.Driver.LeaveLps | ps.c:288-294 | Leaving is idempotent, always ends outside LPS, sends at most the one command for it and starts at most one coex run although coex calls back into it; the proof measure shows that the recursion ends because the flag is cleared first. |
| PowerSave.Driver.LeaveLpsCore | ps.c:185-202 | The order to the firmware is active mode, all on, awake interval 1, rlbm 0, smart PS 0 on the old port; it is sent once, and the flag is clear before coex is told. |
| PowerSave.Driver.EnterLps | ps.c:229-286 | Entry happens exactly when coex does not force LPS off and LPS is not on; configuration, flag and the firmware's last order then agree, even when the nested coex run tries to leave. |
| PowerSave.Driver.LpsEnabledNotify | coex.c:2833-2869 | What telling coex about LPS does on the way in: the TDMA state becomes that of a coex run seen from inside LPS, unless coex is gated off or forces LPS. |
| PowerSave.Driver.LpsDisabledNotify | coex.c:2833-2869 | Telling coex that LPS is off starts at most one coex run and cannot turn LPS on. |
| PowerSave.Driver.RunCoex | coex.c:2548-2679 | Coex runs if and only if none of its five gates holds; a run applies its requests in order, leaves LPS at most once, and then re-enters itself at most once. |
| PowerSave.Driver.CoexTdma | coex.c:1224-1288 | A repeated TDMA case is skipped unless forced; otherwise it is remembered and programmed. |
| PowerSave.Driver.SetTdma | coex.c:1165-1222 | Which TDMA cases force LPS off, hand it back to wifi, or keep it. |
| PowerSave.Driver.PowerSaveState | coex.c:1134-1163 | Forced and native power save both end outside LPS and set the force flag accordingly. |
| PowerSave.ApplyByCase | coex.c:1165-1288 | What a request leaves behind, in terms of the case's first byte, the link mode and the chip: the remembered case, on or off, and who controls LPS; and when nothing is programmed. |
| PowerSave.RunSetsMode | coex.c:2600-2679 | The link mode a run sets before its action, by band. |
| PowerSave.Driver.Leave | ps.c:288-294 | A top-level leave ends outside LPS with flag, mode and last order in agreement; leaving LPS orders active mode, all on, awake interval 1, rlbm 0, smart PS 0 on the old port, once. |
| PowerSave.Driver.CoexEvent | coex.c:2548-2679 | A top-level coex event runs coex if and only if none of the gates holds, at most twice, the second time only if it left LPS, and then with the same awake order as a leave. |
| PowerSave.RunAll | ps.c:176-294 | After every sequence of enters, leaves, coex events and input changes the LPS flag is set if and only if the mode is LPS, the firmware's last order is the current configuration, and outside LPS that is the initial or the awake one, within LPS the sleeping one. |
| PowerSave.EnteredAgainstCoexIff | ps.c:229-286 | On any chip and link, LPS is entered although coex has just demanded it off exactly when the coex run is not gated off and the last of its requests to decide about LPS demands it off. |
| PowerSave.NativeLpsForcesIff | coex.c:2392-2429 | For the native LPS action, the condition in terms of TDMA case, chip table and policy, and paired game controller. |
| PowerSave.EnterAgainstCoex | ps.c:229-286 | A chip and configuration on which entering ends in LPS with coex forcing it off. |
| PowerSave.EmptyTableNeverForces | rtw8812a.c:1117-1120 | A chip without TDMA cases never forces LPS off, whatever its actions ask for. |
| TxLimit.ChannelToIdx | phy.c:1616-1637 | A channel of a band is either refused or mapped to an index inside that band's array. |
| TxLimit.ChannelAt | phy.c:1607-1614 | The 5 GHz channels in numbers: seven runs of seven, two apart. |
| TxLimit.ChannelsByNumber | phy.c:1616-1637 | A channel is found at its own place and nowhere else, and any other number is refused. |
| TxLimit.Hal.LoadTable | phy.c:1775-1779 | Loading rows one by one, invalid ones dropped, updates a domain's cell and the worldwide cell of each valid row. |
| TxLimit.Hal.FillTable | phy.c:1781-1803 | Domains without rows are filled in visiting order from their alternative or from the worldwide limits. |
| TxLimit.Hal.CfgByAlt | phy.c:1755-1764 | The nested copying loops replace exactly one domain's cells, all of them, by another domain's. |
| TxLimit.Hal.CfgRow | phy.c:1741-1753 | The two channel loops copy exactly one bandwidth and section of both bands. |
| TxLimit.Hal.XrefTable | phy.c:1693-1739 | The nested loops cross-reference every HT/VHT pair of all domains at 20 and 40 MHz on 5 GHz, each from its values before. |
| TxLimit.Hal.XrefChannel | phy.c:1672-1710 | The four pairs at one position are cross-referenced independently. |
| TxLimit.Hal.ParseTable | phy.c:1766-1806 | Parsing is loading, filling in and cross-referencing, on any table. |
| TxLimit.FillInAnyOrder | phy.c:1781-1803 | A filled-in domain holds its configured alternative or else the worldwide limits, whatever the visiting order. |
| TxLimit.AlternativesByName | phy.c:1781-1803 | Before cross-referencing: IC, CHILE and MEXICO (3, 6, 8) without rows have FCC's limits if FCC has rows; KCC, ACMA, UKRAINE, CN, QATAR and UK (4, 5, 7, 9, 10, 11) ETSI's if ETSI has rows. |
| TxLimit.WorldwideByName | phy.c:1781-1803 | Without that alternative's rows, and always for FCC, MKK and ETSI, a domain without rows has the worldwide limits. |
| TxLimit.OwnByName | phy.c:1775-1786 | A domain with rows, and the worldwide one, keeps what was loaded. |
| TxLimit.LoadedMeaning | phy.c:1639-1670 | After loading, a domain's cell holds its last valid row and the worldwide cell the least valid row of all domains. |
| TxLimit.LeastRowIsLeast | phy.c:1659-1669 | The least row is a lower bound of the initial value and all rows for the cell, and is one of them. |
| TxLimit.RowByNumber | phy.c:1616-1670 | Which cell a single row is for: a 2 GHz channel c is entry c - 1, a 5 GHz channel its place in the list. |
| TxLimit.ParsedMeaning | phy.c:1766-1803 | Before cross-referencing, each cell is its source domain's last row or the least row, and the worldwide limit is at most every domain's. |
| TxLimit.WorldwideIsMinimumIff | phy.c:1659-1669 | With rows for the worldwide domain allowed, its entry is the minimum if and only if a least row has no worldwide row behind it. |
| TxLimit.WorldwideRowCanRaise | phy.c:1659-1669 | A table with a worldwide row whose worldwide limit ends above a domain's limit. |
| TxLimit.XrefIdempotent | phy.c:1672-1739 | Cross-referencing twice is cross-referencing once. |
| TxLimit.PairsByNumber | phy.c:1672-1739 | The four HT/VHT pairs by section number at 20 and 40 MHz on 5 GHz: each takes over the other's limit if and only if its own is the unassigned maximum. |
| TxLimit.NotCrossed | phy.c:1693-1739 | 2 GHz, 80 MHz, CCK and OFDM cells stay. |
| TxLimit.XrefSettles | phy.c:1672-1690 | Afterwards each HT/VHT pair is equal or neither limit is the unassigned maximum. |
| TxLimit.WorldwideLeastAfterXrefIff | phy.c:1672-1806 | After cross-referencing the worldwide limit is still at most the domain's, except exactly, in terms of the rows: for a limit that the domain's source left unassigned while another domain assigned it, and whose partner limit in the source is below the least of those. |
| TxLimit.XrefCanLift | phy.c:1672-1806 | A table on which it happens: one domain assigns HT only, another VHT only. |
| TxNormalise.SectionsPartition | phy.c:2158-2182 | The ten rate sections partition the rates, and the classifier names the section a rate is in. |
| TxNormalise.Hal.ConfigByPath | phy.c:2389-2410 | One path and section, both bands: the bases are saved, exactly the section's rates become relative to them, nothing else changes. |
| TxNormalise.Hal.ByRateConfig | phy.c:2412-2420 | Over all paths, sections and bands every rate is shifted exactly once, by its own section's original base; the saved bases are given by rate number. |
| TxNormalise.NothingLost | phy.c:2412-2420 | For every path and rate, saved base plus stored offset is the original offset, for all signed bytes, wrapped subtractions included. |
| TxNormalise.BasesByNumber | phy.c:2389-2410 | The saved bases of the ten sections are the old offsets at rates 0x03, 0x0b, 0x13, 0x1b, 0x33, 0x3d, 0x23, 0x2b, 0x47 and 0x51: the last rate of a section, but MCS7 for VHT. |
| TxNormalise.OffsetsByNumber | phy.c:2389-2410 | Which of these each of the 84 rates is relative to, by rate number. |
| TxNormalise.LimitsByNumber | phy.c:2422-2437 | Each limit is relative to path A's saved base of its own band and section. |
| TxNormalise.VhtBaseIsMcs7 | phy.c:2397-2400 | A VHT section with 20 at MCS7 and 16 at MCS9 saves 20 and stores 0 and -4. |
| TxNormalise.BaseRateIsZero | phy.c:2397-2409 | The base rate itself ends at offset zero. |
| TxNormalise.Hal.LimitConfig | phy.c:2439-2450 | Every limit of every domain, bandwidth, section, band and channel is made relative to path A's base of its section and band, once. |
| TxNormalise.Hal.Normalise | main.c:2195-2196 | Both configurations in order: offsets and limits after them as functions of the arrays before. |
| TxNormalise.PathAPreservedIff | main.c:2195-2196 | End to end on path A: for every rate and limit cell of its section, the smaller of the two is the same power after both configurations if and only if the two byte subtractions overflow together or not at all. |
| TxNormalise.PathAKeepsPowerIndices | main.c:2195-2196 | With six-bit power indices the smaller of the two is always the same power on path A. |
| TxNormalise.OtherPathPreservedIff | main.c:2195-2196 | End to end on any path, in signed bytes: the exact condition on offset, limit and the bases of the path and of path A. |
| TxNormalise.OtherPathPowerIndicesIff | main.c:2195-2196 | End to end for six-bit indices: the bases of the path and of path A agree, or the offset is the smaller one before and after. |
| TxNormalise.OtherPathLoses | main.c:2195-2196 | Offset arrays and a limit on which path B's power is cut from 15 to 5. |
| TxNormalise.CapNotRelativeIff | phy.c:2184-2231 | For limits normalised by path A's base, the limit selected with the absolute cap means the same power if and only if the least limit is at most base plus cap; always for a base that is not negative. |
| TxNormalise.CapCuts | phy.c:2184-2231 | Offsets of -1 throughout and limits as initialised, on which channel 1 is selected 62 instead of 63. |
| TxNormalise.BcdIsNotNegative | phy.c:1245-1253 | Two valid BCD digits are read as the number from 0 to 99 that they write, so such tables hold no negative base. |
| TxNormalise.GetTxPowerLimit | phy.c:2184-2231 | From the limit arrays: the least of the cells of 20 MHz up to the effective bandwidth, found by band, domain, section and centre channel, capped; an unknown domain, rate or channel gives the cap. |
| TxNormalise.WidthByNumber | phy.c:2202-2208 | The effective bandwidth by rate number: 20 MHz for CCK and OFDM, at most 40 MHz for HT, the channel's own for VHT. |
| TxNormalise.KnownChannelBand | phy.c:2214-2220 | Choosing the array by channel number agrees with the band, for every known channel. |
| TxNormalise.LeastLimit | phy.c:2210-2225 | The selected limit is a lower bound of the cap and of all considered cells, and is one of them. |
| Dig.BoundsOrderedIff | phy.c:458-482 | The lower bound is at most the upper one if and only if the device is not linked or the RSSI minimum is at most 240. |
| Dig.DmInfo.StatRssi | phy.c:319-351 | The iteration computes the least average, 255 when no station is iterated over. |
| Dig.MinRssiIsLeast | phy.c:319-351 | That value is a lower bound of all averages and is one of them or 255. |
| Dig.BoundsCrossIff | phy.c:458-482 | With averages up to 100, as received packets give, the bounds cross if and only if stations are counted but none was iterated over. |
| Dig.UnheardStationLowers | main.c:370 | A station that was not heard yet counts with average 0: the bounds are the chip's lowest, in order. |
| Dig.UniteratedStationCrosses | util.c:119-135 | With a station counted and none iterated over the bounds cross at 0x40 and 14; which of them is recorded depends on the kernel's clamp_t as stated. |
| Dig.GainInBounds | phy.c:538-599 | Every computed gain lies between the bounds and is at most 0x5a; when the bounds cross it is one of them. |
| Dig.GainUsableIff | phy.c:538-599 | A tick's gain is between 2 and 0x5a from every previous gain if and only if it is not linked with an RSSI minimum of 241 or 242. |
| Dig.StationsAreUsable | phy.c:319-351 | Averages up to 100, or no station at all, never give such a minimum. |
| Dig.GainDoesNotWrap | phy.c:567-582 | From any usable previous gain the byte arithmetic of step and decrement never wraps. |
| Dig.LinkedSteps | phy.c:484-573 | Linked, where the bounds do not bite: a false-alarm count above 750, 500 or 250 moves the gain by +4, +2 or 0 if the RSSI minimum fell and by +2, +1 or 0 if not; any other by -2. |
| Dig.UnlinkedSteps | phy.c:484-573 | Not linked: above 5000, 4000 or 2000 by +2, +1 or 0, any other by -2. |
| Dig.BoundsByNumber | phy.c:458-482 | The bounds in numbers: the RSSI minimum, at least the chip's lowest gain and at most 0x40, and 15 above it; not linked 0x1c and 0x2a. |
| Dig.MoreAlarmsMoreGain | phy.c:538-599 | A larger false-alarm count never gives a lower gain. |
| Dig.FallingRssiMoreGain | phy.c:538-599 | A falling RSSI minimum never gives a lower gain than a steady one. |
| Dig.WeakeningStation | phy.c:538-599 | A station falling from 60 to 50 and 800 false alarms take the gain from 0x36 to 0x3a. |
| Dig.RegisterByNumber | phy.c:586-599 | What a recording tick leaves in the register: 0x1c if the override fires, else the gain recorded, and nothing is written when that is the previous gain. |
| Dig.HistoryHoldsLastRecordings | phy.c:511-599 | Over every run, entry k of the histories is a gain within the bounds (one of them, if they cross) of the tick that was the k-th last to record, with that tick's false-alarm count; older entries are those from before the run. |
| Dig.GainStaysUsable | phy.c:538-599 | Over every run of such ticks, crossed bounds included, from the first recorded gain on the newest gain is usable, so the decrement never wraps again. |
| Dig.ShiftedBits | phy.c:518-523 | Shifting a new bit into the byte bitmap moves every older bit up by one. |
| Dig.RecordKeepsTrend | phy.c:511-536 | Recording keeps bit k of the bitmap equal to history[k] > history[k+1] for as many bits as have been recorded, at most three. |
| Dig.TrendAlways | phy.c:511-599 | The bitmap describes the history after every run of ticks. |
| Dig.PatternsDescribeHistory | phy.c:423-447 | The two bitmap patterns of the damping check mean the up-and-down sequences of recorded gains they look for. |
| Dig.DampingStartsIff | phy.c:423-456 | Damping starts if and only if one of the two bitmap patterns comes with gains at least 2, or 4 and 2, apart and with false alarms above 500 and below 250 in the matching order. |
| Dig.DampingEndsIff | phy.c:408-421 | An episode goes on if and only if at most 20 ticks were counted and the RSSI minimum is within 3 of where it started. |
| Dig.DmInfo.Init | phy.c:238-262 | Initialisation restarts histories and bitmap from the gain register, in a state whose bitmap describes its history; damping goes on. |
| Dig.DigProgress | phy.c:395-456 | Every enabled tick records a gain or uses up budget of a damping episode. |
| Dig.RecordsWithinBudget | phy.c:395-599 | From any state, as many enabled ticks as its budget record a gain, for all RSSI and false-alarm inputs. |
| Dig.AnyTwentyThreeTicksRecord | phy.c:395-599 | Any 23 consecutive enabled ticks record a gain. |
| Dig.DampingLastsTwentyTwoTicks | phy.c:395-456 | The bound is tight: in steady reception an episode suppresses exactly 22 ticks. |
| Dig.RegisterTracksIff | phy.c:586-599 | From equal register and newest gain, a recording tick keeps them equal if and only if the beacon-loss override does not fire or the gain recorded is its value. |
| Dig.RegisterDisplacedIff | phy.c:375-393 | Over every run of ticks and scans from equal register and gain, they differ at the end if and only if the last event that fired the override, moved the gain or scanned was a firing override or scan start with another gain recorded than the override's value. |
| Dig.RegisterTracksAlways | phy.c:375-393 | On chips without the override, over every run of ticks and scans, the register holds the newest recorded gain whenever no scan is on. |
| Dig.OverrideWritten | phy.c:586-599 | On the other chips, in every run, a recording tick with beacon loss ends with the override in the register, whatever gain it records or was recorded before. |
| Dig.OneLossSticks | phy.c:586-599 | A run on which it happens: after one tick with beacon loss the override stays in the register for as many ticks as the recorded gain does not move. |
| Dig.DmInfo.CheckDampingNow | phy.c:395-456 | The damping check in place: freeze, release on RSSI change or expiry, and start on either pattern. |
| Dig.DmInfo.RecordNow | phy.c:511-536 | The history arrays shifted in place, element by element. |
| Dig.DmInfo.StepUp | phy.c:567-573 | The threshold loop adds the step of the first level exceeded and only that. |
| Dig.DmInfo.DigNow | phy.c:538-599 | The whole loop body in place equals one step of the modelled machine. |
| RsvdImage.CeilDivIsRoundedUp | fw.c:1341-1344 | The page count of a length is the rounded-up quotient. |
| RsvdImage.PagesByLength | fw.c:1657-1740 | A packet takes as many pages as its bytes, with the descriptor's for the first packet only, rounded up. |
| RsvdImage.NextByLength | fw.c:1659-1720 | The byte counter after one more packet: the pages of its bytes, with the descriptor's whenever the counter is 0, added and cut to a byte. |
| RsvdImage.AllocSizeIn32Bits | fw.c:1717-1723 | The size asked of the allocation is one expression in 32 bits, also for a counter that wrapped to 0. |
| RsvdImage.AssignPages | fw.c:1680-1715 | For any list, the first pass succeeds if and only if every packet met at counter 0 is a beacon or dummy, and then records the byte counter before each packet. |
| RsvdImage.Total8Exact | fw.c:1680-1715 | Up to 255 pages those counters are the packets' start pages. |
| RsvdImage.CopyPackets | fw.c:1346-1357 | All copies are inside the buffer if and only if the list takes at most 255 pages, and then every packet is at its place, none overwritten, all other bytes zero. |
| RsvdImage.Build | fw.c:1657-1756 | For any list: no image if and only if a packet at counter 0 is neither beacon nor dummy, the counter exceeds the region, or it is 0; an overrun exactly for accepted lists of more than 255 pages; else an image, both passes using the same page for every packet. |
| RsvdImage.HeadOnly | fw.c:1704-1709 | Up to 255 pages only the first packet has to be a beacon or dummy. |
| RsvdImage.ZeroIsWrapped | fw.c:1722-1725 | The counter ends at 0, which asks for nearly 4 GiB, only after it has wrapped. |
| RsvdImage.CopiesDisjoint | fw.c:1722-1745 | Any two packets are copied to disjoint ranges, in list order. |
| RsvdImage.CopyInsideBuffer | fw.c:1722-1745 | Every packet is copied inside the buffer. |
| RsvdImage.PacketsArePageAligned | fw.c:1346-1357 | With the TX descriptor in front, every packet but the first starts exactly at its recorded page times the page size. |
| RsvdImage.CounterExactIff | fw.c:1704-1720 | The byte-sized page counter is exact for a list if and only if the list takes at most 255 pages. |
| RsvdImage.CopiesInsideIff | fw.c:1722-1745 | With the copying pass's own counter of byte-sized page counts, all packets are copied inside the buffer if and only if the list takes at most 255 pages. |
| RsvdImage.WrappedListPasses | fw.c:1704-1720 | 257 one-page packets are counted as a single page. |
| RsvdImage.DownloadCountsTheSame | fw.c:1572-1586 | For a power-of-two page size the download's shift-and-mask count of the image's bytes is the page count of the build. |
| RsvdImage.DownloadRoundsUp | fw.c:1572-1586 | Shift and mask round up, for every size and every power of two. |
| FifoLayout.SetTrxFifoInfo | mac.c:1146-1197 | The address check behind the layout never fails, the layout fails exactly on too few pages, and otherwise the regions tile the reserved pages from the boundary to the end without gap or overlap, if and only if their 16-bit sum is exact. |
| FifoLayout.OverflowIsAccepted | mac.c:1146-1197 | A chip whose sum overflows: accepted, and not tiled. |
| FifoLayout.AddressesByNumber | mac.c:1146-1197 | Where each region of a tiled layout begins, in pages before the end of the FIFO. |
| FifoLayout.AcceptedImageFits | fw.c:1572-1586 | For a tiled layout, the FIFO pages of every packet of an accepted image lie between the boundary and the next region, so they meet no other region; and the image passes the download's page check. |
| RsvdList.MakeKeepsOk | fw.c:1359-1406 | Making a page keeps ownership. |
| RsvdList.DropKeepsOk | fw.c:1425-1440 | Removing one page from its interface, from the build list if it is there, and freeing it keeps ownership. |
| RsvdList.PopKeepsOk | fw.c:1588-1602 | One step of the reset keeps ownership and leaves no dummy behind the head. |
| RsvdList.PutKeepsOk | fw.c:1604-1623 | Gathering an owned page to either end of the build list keeps ownership. |
| RsvdList.DummyKeepsOk | fw.c:1640-1652 | Putting a dummy in front of a list without one keeps ownership. |
| RsvdList.DropAllEffect | fw.c:1425-1440 | Removing an interface's pages frees each of them once, in order, and takes exactly them off the build list. |
| RsvdList.PopAllEffect | fw.c:1588-1602 | A reset empties the build list, frees the dummy if there is one, and frees nothing else. |
| RsvdList.Device.AddPage | fw.c:1391-1406 | A page is appended to its interface's list, or nothing happens when allocation fails. |
| RsvdList.Device.RemovePages | fw.c:1425-1440 | The removal loop in place has the effect described for it. |
| RsvdList.Device.Reset | fw.c:1588-1602 | The reset loop in place has the effect described for it. |
| RsvdList.Device.Gather | fw.c:1604-1623 | The iteration over one interface's list in place, beacons to the front and other pages to the back. |
| RsvdList.PutAllEffect | fw.c:1614-1622 | That adds exactly the list's pages, keeps a beacon in front if there is any, and the other pages in order. |
| RsvdList.PutTurnsEffect | fw.c:1604-1632 | Gathering from all interfaces keeps ownership and gathers exactly the pages of those taking part, the others than beacons in turn. |
| RsvdList.Device.Rebuild | fw.c:1625-1655 | The build list has exactly the pages of all interfaces, those of access points only when one is active, beacons in front and the others in the order of the interfaces and their lists; success means a beacon or dummy in front, the dummy exactly when there is no beacon; failure exactly when there is nothing or no dummy can be made. |
| RsvdList.Device.RemoveInterface | mac80211.c:238-267 | An interface goes with all of its pages freed and no others. |
| RsvdList.Device.Deinit | main.c:2361-2369 | When the device goes, every page ever made has been freed exactly once, but for those leaked by restarts and not on the build list. |
| RsvdList.LeakKeepsOk | mac80211.c:176-178 | Re-adding a live interface with a fresh list head leaks its pages, none if and only if its list was empty; still no page is freed twice and no freed page is on a list. |
| RsvdList.Device.Reinitialise | mac80211.c:176-178 | The step in place. |
| RsvdList.RunAll | fw.c:1588-1655 | Ownership holds after every run of adds, removals, restarts and rebuilds, however allocations turn out; freed pages stay freed, and nothing is leaked unless a restart meets a page. |
| Ids.FirstZero | main.h:2349-2358 | The first number not marked, or the size if all are. |
| Ids.AddInterfaceKeepsOk | mac80211.c:156-236 | Adding an interface keeps the bitmaps exact, whether it succeeds or fails. |
| Ids.AddInterfaceOutcome | mac80211.c:156-236 | A success hands out unmarked numbers, followed by the port switch; a failure changes nothing or marks one MAC id that nobody holds, for good. |
| Ids.InterfaceNumbers | mac80211.c:156-215 | A new interface has the least free of 32 MAC ids and, unless an access point switches ports, the least free of five ports. |
| Ids.LosesNoneIff | mac80211.c:156-236 | An add loses no MAC id if and only if none is free, or a port is free and the type is supported. |
| Ids.OnePortShort | mac80211.c:180-190 | An interface more than there are ports loses a MAC id. |
| Ids.UnsupportedFirst | mac80211.c:211-216 | So does an interface of an unsupported type, as the very first one. |
| Ids.ExchangeKeepsOk | main.c:2561-2562 | Exchanging the ports of two interfaces keeps bitmaps and holders exact. |
| Ids.SwitchGetsZeroIff | main.c:2567-2578 | An access point ends on port 0 if and only if it was there or another listed interface was; then just these two have exchanged ports, in any order of visits. |
| Ids.Device.CorePortSwitch | main.c:2567-2578 | The iteration in place, as far as ports go. |
| Ids.RemoveInterfaceKeepsOk | mac80211.c:238-267 | Removing an interface whose stations are gone keeps the bitmaps exact. |
| Ids.ChangeInterfaceKeepsOk | mac80211.c:269-284 | Changing an interface's type keeps the bitmaps exact. |
| Ids.ChangeFailsIff | mac80211.c:269-284 | A change of type fails if and only if the new type is unsupported, and loses a MAC id exactly then. |
| Ids.AddStationKeepsOk | main.c:351-384 | Adding a station keeps the bitmaps exact and the count right, and a failure changes nothing. |
| Ids.StationIdByCase | main.c:351-384 | Peers of a station interface, tunnelled ones aside, share its MAC id; any other station takes the least free one, and fails if and only if there is none. |
| Ids.RemoveStationKeepsOk | main.c:386-408 | Removing a station releases its MAC id unless it shares its interface's, and keeps everything exact. |
| Ids.NoSharing | main.c:351-408 | No two interfaces share a MAC id or port, and a station with an interface's MAC id is that interface's managed station. |
| Ids.EmptyMeansOnlyLost | mac80211.c:156-284 | With nobody live, exactly the MAC ids lost by failed adds are marked, no port is, and the count is zero. |
| Ids.ResetStationsRemovesAll | main.c:622-631 | The station reset of recovery removes every station and keeps everything exact, despite its zero-count shortcut. |
| Ids.ReleaseAllEffect | main.c:633-643 | The interface reset unmarks exactly the interfaces' MAC ids. |
| Ids.RecoveryEmptiesMaps | main.c:652-683 | Recovery empties both bitmaps whatever was live, except for MAC ids lost by failed adds. |
| Ids.Device.AcquireMacId | main.h:2349-2358 | The first free MAC id is marked, or nothing when none is free. |
| Ids.Device.OpsAddInterface | mac80211.c:156-236 | The callback in place, with its three failure exits and the port switch of an access point. |
| Ids.Device.OpsRemoveInterface | mac80211.c:238-267 | The callback in place. |
| Ids.Device.OpsChangeInterface | mac80211.c:269-284 | A change of type is a removal and an addition. |
| Ids.Device.StaAdd | main.c:351-384 | The callback in place; managed stations take their interface's MAC id. |
| Ids.Device.StaRemove | main.c:386-408 | The callback in place. |
| Ids.Device.FwRecovery | main.c:652-683 | The three resets in place, for any order of stations and interfaces, end in the empty state. |
| Ids.RunAll | mac80211.c:156-284 | Over every run of interface and station changes, port switches and recoveries no two owners share a number, every held number is marked and the station count is right; unless an operation fails, nothing else is marked. |
| RegMask.GetBits | hci.h:202-213 | A masked read shifted down by the mask's lowest bit gives the two masked bits, for every mask of two neighbouring bits. |
| RegMask.SetBits | hci.h:241-253 | A masked write puts the value's two bits there and keeps every other bit of the register. |
| PortSwitch.PortMap | mac80211.c:118-154 | The register map of the five ports, its masks two neighbouring bits each. |
| PortSwitch.MapMasks | mac80211.c:118-154 | Which bits the five masks are. |
| PortSwitch.BytesMissWords | mac80211.c:118-154 | No byte register of the map meets the two 32-bit registers. |
| PortSwitch.MapIsSeparate | mac80211.c:118-154 | The registers of any two ports are disjoint. |
| PortSwitch.LookByNumber | mac80211.c:118-154 | Which bytes are an interface's MAC address, BSSID and beacon control on each of the five ports. |
| PortSwitch.NetTypeByNumber | mac80211.c:118-154 | And which two bits of which register its net type. |
| PortSwitch.Device.SwapRegBytes | main.c:2496-2509 | The byte loop exchanges two ranges that are equal or apart. |
| PortSwitch.Device.SwapRegMask | main.c:2511-2521 | Both masked fields are read before either is written. |
| PortSwitch.SwappedBit | main.c:2511-2521 | The bits of two fields are exchanged, also within one register, and no other bit of any register changes. |
| PortSwitch.SwappedBits | main.c:2528-2565 | Every bit of the two 32-bit registers after a port swap: exchanged in the two net-type fields, unchanged elsewhere. |
| PortSwitch.SwappedField | main.c:2528-2565 | What is read from the two net-type fields is exchanged. |
| PortSwitch.Swapped | main.c:2528-2565 | Every byte of MAC, BSSID and beacon control is exchanged with the other port's. |
| PortSwitch.UnswappedByte | main.c:2528-2565 | No byte outside the two ports' MAC, BSSID and beacon control changes. |
| PortSwitch.ViewsFollow | main.c:2528-2565 | Each of the two interfaces reads through its new port what it read through its old one. |
| PortSwitch.ThirdViewUntouched | main.c:2528-2565 | A third interface reads what it read before. |
| PortSwitch.SwapIsInvolution | main.c:2528-2565 | Swapping twice is the identity on all registers. |
| PortSwitch.Device.PortSwitchIter | main.c:2528-2565 | The iterator in place: nothing unless the visited interface has port 0, else registers, ports and confs are exchanged. |
| PortSwitch.Device.CorePortSwitch | main.c:2567-2578 | Whatever the visiting order, the displaced interface and the access point exchange once, and the access point has port 0 at the end; if nobody has port 0, nothing changes. |
| PortSwitch.InterfacesSeeTheSame | main.c:2528-2565 | After an exchange the ports are still distinct and every interface, through its own port, reads what it read before. |
| CoexLimiter.Coex.LimitTx | coex.c:36-95 | The limiter register by register, with its early exits, saves and restores. |
| CoexLimiter.OriginalsSurvive | coex.c:36-95 | After every sequence of requests the four registers hold their originals while their limit is off, and the saved copies hold them while it is on. |
| CoexLimiter.SwitchingOffRestores | coex.c:36-95 | After any requests, switching both limits off gives back the originals, lifetime nibble and grant bit aside. |
| CoexLimiter.RequestedLimits | coex.c:52-95 | After any requests, a requested limit is on with its values 0x0808, 0x1000000, 0x4030201 and 0x20 in the registers, and one not requested is off with the originals back. |
| CoexLimiter.LifetimeRestoredIff | coex.c:36-95 | After any requests, switching both limits off gives back all registers if and only if no limit was ever asked for, or lifetime nibble and grant bit were clear before. |
| CoexLimiter.ReinitialisationKeepsIff | coex.c:2681-2706 | Re-initialising coex keeps the originals if and only if no limit was on or the originals were the limited values. |
| CoexLimiter.LifetimeLost | coex.c:79-84 | The A-MPDU limit alone already clears a lifetime nibble that was set. |
| CoexLimiter.OriginalLost | coex.c:2681-2706 | A retry limit lost to a re-initialisation between two requests. |
| CoexLimiter.NoScoreboardNoChange | coex.c:44-45 | Without scoreboard support no request changes anything. |
| ScanList.Entry | fw.c:2161-2188 | An entry is four bytes, seven with its extra part. |
| ScanList.EntryByNumber | fw.c:2190-2217 | The four or seven bytes of a channel's entry, in numbers, for active and passive channels, with and without a mandatory duration. |
| ScanList.EntryRoundTrip | fw.h:449-469 | An entry is read back from the front of any list, up to the low eight bits of its timeout. |
| ScanList.ParseSerialised | fw.c:2190-2234 | Any serialised list parses back to its entries, in order, timeouts cut to a byte. |
| ScanList.RoundTripIff | fw.c:2190-2234 | A request's list is read back entry for entry if and only if every timeout fits a byte. |
| ScanList.SizeBound | fw.c:2330-2356 | A list takes between four and seven bytes a channel. |
| ScanList.LongDurationCut | fw.c:2190-2234 | A request for 256 ms is read back as one for 0 ms. |
| ScanList.HalvesDetermineByte | fw.h:449-469 | Setting both halves of a byte determines it, whatever it held. |
| ScanList.FlagDeterminesByte | fw.h:449-469 | So does setting its low seven bits and its top bit. |
| ScanList.ChanList.AddChanInfo | fw.c:2161-2188 | Out of memory exactly when the list is past the buffer size, an overrun exactly when the check passes and the entry does not fit; neither changes the list. Else one entry is appended in place behind the list so far. |
| ScanList.ChanList.AddChanList | fw.c:2190-2234 | The whole list is the serialisation of the request whatever the buffer held, the channel count is right, and the only failure is a list longer than the reserved pages. |
| FwDownload.Device.WriteFirmwarePage | mac.c:859-889 | The word loop puts one page of at most 4 KiB into the selected page, its last word padded with zeros, and touches no other page. |
| FwDownload.Device.UsbWriteFirmwarePage | usb.c:228-280 | The transfers of a block, eight or one byte put the page into place once, in order, up to the first failed one, which silently ends the page, and touch nothing else. |
| FwDownload.AllSent | usb.c:256-277 | The whole page arrives if and only if every transfer it needs succeeds. |
| FwDownload.TransfersByNumber | usb.c:256-277 | A page takes its whole blocks, then the eights of what is left, then the ones. |
| FwDownload.Device.WritePages | mac.c:914-921 | One attempt writes the whole pages and the rest, each to the page its number selects. |
| FwDownload.Device.DownloadLegacy | mac.c:892-930 | Up to five attempts, each with its own failing transfers, stop at the first good verdict of the device; the memory then holds what the last attempt loaded, over whatever was there. |
| FwDownload.LoadedPage | mac.c:892-930 | Up to eight pages, each page holds what arrived of it and keeps the rest. |
| FwDownload.PayloadInPlace | mac.c:892-930 | For a payload of at most eight pages whose transfers all succeed, the byte at offset off of page q is payload byte 4096 q + off. |
| FwDownload.LastWordPadded | mac.c:885-888 | The rest of the last word is zero. |
| FwDownload.DownloadedPayload | mac.c:892-930 | After such a download every payload byte is in place. |
| FwDownload.PayloadInPlaceIff | mac.c:892-930 | All payloads of a size are in place if and only if the size is at most eight pages: the ninth page overwrites the first. |
| FwDownload.DownloadToMem | mac.c:645-694 | The chunks tile the payload in order, each at most 0x1000 bytes, addressed source to target at the same offset, only the first starting a fresh checksum; a refused chunk stops after a tiled prefix. |
| FwDownload.TilesCoverOnce | mac.c:661-688 | Every payload byte is in exactly one transfer. |

## Left out

- RsvdImage.CopyPackets: bytes that an overrun writes behind the buffer are not modelled, only that it happens; nor are packets of a failed skb allocation.
- RsvdImage.Build: the error path of a failed allocation of ordinary size is not modelled.
- RsvdImage.PacketsArePageAligned: the contents of the packets (beacons, null data, LPS and PG info) are opaque bytes.
- Efuse.DumpWords: requires an even logical size; with an odd one the code could write one byte past its logical map.
- Mailbox.H2cDriver.FirmwareDownloaded: commands still pending at a download are forgotten, not tracked.
- PowerSave.Driver.RunCoex: the roughly twenty coex actions other than native LPS are one function of what an action can look at; their tables are policy.
- PowerSave.Driver.LeaveLps: deep power save, WoWLAN and the polling for the firmware's acknowledgement are not modelled.
- TxLimit.Hal.LoadTable: the 32-bit flag word of configured domains is a set.
- Dig.DmInfo.DigNow: the false-alarm statistics and the CCK packet detection that follows are not modelled.
- PortSwitch.Device.PortSwitchIter: the AID field, which the driver does not swap, and the call to leave LPS before the swap are not modelled.
- RsvdList.Device.Gather: linked lists are sequences; the pointers of a removed list node are not modelled.
- ScanList.ChanList.AddChanInfo: bytes that an overrun writes behind the buffer are not modelled, only that it happens.
- Ids.Device.OpsAddInterface: only the ports of the exchange; its registers are in PortSwitch.
- FwDownload.DownloadToMem: the reserved-page transfer and DMA inside one chunk, and the final checksum, are one outcome per chunk.
- USB, PCI and SDIO transport: register access is a plain register file.
- RF calibration (IQK, LCK), channel groups, rate-id selection and the dB table: hardware sequences and finite lookups.
- H2C and C2H packet layouts other than the scan list; they would add easy members.
- Wake-on-WLAN, beamforming, SAR, the regulatory country list, debugfs and LEDs.
