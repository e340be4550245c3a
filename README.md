# Si5351A clock-generator driver, modelled in Dafny

The repository drives a Silicon Labs Si5351A clock generator over I2C from a Raspberry Pi.
Four Python programs hold variants of the same driver core, and each is modelled as written,
because they disagree in places:

- `Final2.py` is the CLI version. Its `write_register` retries 5 times and reads every write back,
  except writes to 0xB1, 1 and 187 and writes made with `skip_verify`. Its `initialize` polls
  SYS_INIT, checks the crystal load and runs three rounds of PLLA lock polling. Its
  `set_frequency` searches an R divider, reduces c to 1 for an integer ratio, and programs the
  channel, register 3 and the PLLA reset. It also has `reset_and_disable_clocks`.
- `hardkod.py` reads back every write, 0xB1 included, with 3 attempts. It never reduces c. It
  packs `divby4 << 3` into byte base+2. Its `set` command programs four times the frequency typed.
- `testVerzija.py` is the earliest version. Each register access is one raw transaction, with no
  retry and no read-back. It has no R divider. It sets divby4 = 3 exactly when a = 4. Its
  `initialize` writes only MSNA registers 26..30, and it never touches register 3.
- `setF.py` is a stand-alone `set_frequency` with hardkod.py's planner and layout. It takes
  `write_register` and `read_register` from its surroundings.

## How the model is built

- **Bus and chip** (`bus.dfy`). The chip is a file of 256 byte registers. The I2C wire is an
  *oracle*: a sequence of replies, one used per raw transaction. Ack completes the transaction,
  Nak raises OSError, and Answer(v) completes a read that returns v, which covers status bytes
  the chip sets itself and noise on the wire. Registers in the self-clearing set read 0 after a
  write; 0xB1 is always in it. Every transaction is appended to a log, and the lemmas speak
  about that log. The state is the datatype `Wire`. The class `Device` holds the registers in an
  `array`; its raw methods are proved equal to the step functions on `Wire`.
- **Transport** (`transport.dfy`). `write_register` and `read_register` are retry loops. They are
  given as functions of the bus state (`WriteLoop`, `ReadLoop`), and as `while`-loop methods over
  the `Device` that are proved to compute those functions.
- **Runs of accesses** (`sequence.dfy`). Consecutive `write_register` calls, where the first
  OSError skips the rest, and `for` loops of reads.
- **Planner** (`multisynth.dfy`). The frequency plan in exact integers, following the Multisynth
  equations of Silicon Labs AN619:
  - `a = VCO div (freq r)`;
  - `b = ((VCO mod (freq r)) * 1048575) div (freq r)`;
  - the range test `8 <= VCO / (freq r) <= 2048` becomes `8 freq r <= VCO <= 2048 freq r`.
- **Encoding** (`encoding.dfy`). The eight Multisynth bytes, the control byte and the register-3
  bit operations, each with decoders for what the chip reads back out of the bytes. Python's
  `>>`, `&` and `|` are written arithmetically (`bits.dfy`).
- **Shared pieces.** `programs.dfy` holds the channel registers, the MSNA image and the status
  polling loop. `channel.dfy` programs one channel and does the register-3 read-modify-write.
- **One module per program.** `final2.dfy`, `hardkod.dfy`, `testverzija.dfy` and `setf.dfy` each
  model one program's operations as functions over `Wire`. Methods over `Device` are proved
  equal to those functions.

Every retry count is a parameter `retries` of the functions. Lemmas about what a successful
write or read leaves behind require `retries > 0` and then hold for every positive count; lemmas
about frames, order and rejections hold for every count, zero included. testVerzija.py's single
attempt is fixed as `TestVerzija.Retries := 1`.
The methods use the programs' defaults: 5 for Final2.py, 3 for hardkod.py and 1 for testVerzija.py.

## Model

| member | source | states |
|---|---|---|
| Bus.Latched | Final2.py:17 | A register outside 0xB1, 1 and 187 (0xBB) keeps the byte written to it; a self-clearing register holds 0 afterwards |
| Bus.LatchesValue | Final2.py:17 | Any register other than 0xB1, 0x01 and 0xBB latches exactly the value written |
| Bus.WriteByte | Final2.py:16 | One raw `write_byte_data` keeps the bus well formed and the self-clearing set unchanged |
| Bus.ReadByte | Final2.py:19 | One raw `read_byte_data` changes no register |
| Bus.Device.State | Final2.py:16 | A valid device's abstract state is a well-formed bus of 256 registers |
| Bus.Device.constructor | Final2.py:16 | A new device holds the given registers, reply script and self-clearing set, with an empty log |
| Bus.Device.WriteByteData | Final2.py:16 | The raw write over the register array has exactly the effect and result of `WriteByte` |
| Bus.Device.ReadByteData | Final2.py:19 | The raw read over the device has exactly the effect and result of `ReadByte` |
| Bits.Pow2 | Final2.py:305 | `1 << k` is a positive power of two |
| Bits.BitOr | Final2.py:183 | Python's `a \| b` on non-negative integers, bit by bit; its bounds are `Bits.OrBounds` and its disjoint case `Bits.OrDisjoint` |
| Bits.OrBounds | Final2.py:183 | `a \| b` is at least each operand and at most their sum |
| Bits.OrDisjoint | Final2.py:183 | OR of a multiple of 2^k with a value below 2^k is their sum |
| Bits.BitAnd | Final2.py:304 | Python's `a & b` on non-negative integers, bit by bit; its bounds are `Bits.AndBounds` |
| Bits.AndBounds | Final2.py:304 | `a & b` is at most each operand |
| Bits.AndAllOnes | Final2.py:183 | A value below 2^k is unchanged by `& (2^k - 1)` |
| Bits.ClearBit | Final2.py:305 | `x & ~(1 << k)` has bit k clear and is at most x, and it is x itself when bit k of x was already clear |
| Bits.Pow2Clears | Final2.py:305 | Taking 2^k away from a value with bit k set clears that bit |
| Transport.WriteLoop | Final2.py:13-31 | A write with any number of attempts keeps the bus well formed and the self-clearing set unchanged |
| Transport.ReadLoop | Final2.py:33-41 | A read loop changes no register |
| Transport.Attempt | Final2.py:16-26 | One loop body (the write, then the read-back when verifying) keeps the bus well formed |
| Transport.AttemptShape | Final2.py:16-26 | One attempt logs exactly one raw write, plus one read-back only when verifying after a successful write, and changes only `reg` |
| Transport.AttemptConfirms | Final2.py:19-26 | An attempt succeeds exactly when its last access confirms the value, and no earlier one does; a mismatch carries the differing byte read back |
| Transport.AttemptLogged | Final2.py:16-26 | The same facts stated at the positions in the bus log where the loop wrote them |
| Transport.WriteLoopFrame | Final2.py:13-31 | A write touches only `reg`, changes no other register, and when it returns after an attempt `reg` holds the latched value |
| Transport.UnverifiedWriteNeverReadsBack | Final2.py:17-18 | Without verification every access of the write is a raw write of `v` to `reg`; it never reads the register back |
| Transport.WriteFailsOnlyAfterEveryAttempt | Final2.py:22-30 | A write raises only after `retries` attempts, each of which made exactly one raw write |
| Transport.FailedWriteNeverConfirmed | Final2.py:20-30 | When a write raises, none of its accesses confirmed the value |
| Transport.VerifyFailureCarriesReadBack | Final2.py:20-23 | A verification failure reports the byte of the last read-back, which differs from the byte written |
| Transport.WriteDoneIsConfirmed | Final2.py:18-26 | A write that returns ends with the access that confirms the value: the read-back of `v`, or the successful raw write when unverified |
| Transport.VerifiedWriteToSelfClearingFails | hardkod.py:14-32 | A verified write of a nonzero byte to a self-clearing register always raises, unless the chip answers a read with that very byte |
| Transport.ReadLoopFrame | Final2.py:33-41 | A read changes no register and logs reads of `reg` only, the last of which gives the result |
| Transport.ReadReturnsFirstSuccess | Final2.py:33-41 | `read_register` returns the first byte obtained; it gives up only after `retries` consecutive failed reads, and the log shows failures then at most one success |
| Transport.WriteWithRetry | Final2.py:13-31 | The `for`/`try` retry loop over the device computes exactly `WriteLoop`, so every lemma about `WriteLoop` applies to it |
| Transport.ReadWithRetry | Final2.py:33-41 | The read retry loop over the device computes exactly `ReadLoop` |
| Sequence.WriteAll | Final2.py:63-67 | A run of `write_register` calls keeps the bus well formed; the first call that raises ends the run |
| Sequence.FailedIndex | Final2.py:63-67 | The index of the call that raised is below the run's length exactly when the run raised |
| Sequence.Pos | Final2.py:181-190 | The position of the first write to a register, or the run's length when there is none |
| Sequence.WriteAllFrame | Final2.py:181-190 | A run touches only the registers it lists, none listed after the call that raised, and every unlisted register keeps its value |
| Sequence.WriteAllInOrder | Final2.py:228-242 | With no register listed twice, the accesses of a run come in the order of the list |
| Sequence.WriteAllNeverReads | testVerzija.py:96-110 | A run in which no write is read back makes raw write transactions only |
| Sequence.WriteAllLatches | Final2.py:181-190 | Every call before the one that raised (all of them, when none did) left its register holding the latched value |
| Sequence.WriteAllStores | Final2.py:181-190 | A run that returned stores every listed value, when none of its registers may clear itself |
| Sequence.WriteEach | Final2.py:181-190 | The method running the writes one by one over the device computes exactly `WriteAll` |
| Sequence.ReadBlock | Final2.py:209-211 | A `for` loop of reads changes no register and returns `n` bytes when no read raised |
| Sequence.ReadBlockFrame | Final2.py:209-211 | A dump reads only the registers `first .. first+n-1` |
| Sequence.ReadEach | Final2.py:209-211 | The dump loop over the device computes exactly `ReadBlock` |
| Programs.BlockWrites | Final2.py:83-90 | The writes to consecutive registers list each register once, in order, with its byte |
| Programs.MsnaIsRatio32 | Final2.py:82-90 | The MSNA bytes (`MsnaBytes`) are 00 01 00 0E 00 00 00 00: P1 = 3584 = P1(32, 0, 1), P2 = 0 and P3 = 1, which is ratio 32, PLLA at 800 MHz from the 25 MHz crystal |
| Programs.LockTestsAgree | Final2.py:110 | `(status & 0xA0) == 0` holds exactly when both `(status & 0x20) == 0` and `(status & 0x80) == 0` hold |
| Programs.PollStatus | Final2.py:48-59 | A polling loop over register 0 changes no register |
| Programs.PollFindsFirstReady | Final2.py:48-59 | A poll reads only register 0 and reports Ready with the first status that passes the test; otherwise no read passed it; it raises only when OSError is not caught |
| Programs.PollUntilReady | Final2.py:48-59 | The polling loop method computes exactly `PollStatus` |
| Multisynth.RValuesArePowersOfTwo | Final2.py:142 | The k-th candidate R is 2^k, so its index is `log2 r` |
| Multisynth.InRange | Final2.py:143-144 | The test `8 <= VCO / (freq r) <= 2048`, written without division: 8 freq r <= 800 MHz <= 2048 freq r |
| Multisynth.FirstR | Final2.py:142-150 | The search returns the first candidate in range, and none before it is in range |
| Multisynth.NoDividerExactlyBelow3052 | Final2.py:141-150 | Below 500 kHz, no R qualifies exactly for 2500 Hz to 3051 Hz |
| Multisynth.WholePart | Final2.py:166 | a is the floor of VCO / (freq r): `a fr <= VCO < (a + 1) fr` |
| Multisynth.FracPart | Final2.py:167-168 | 0 <= b < 1048575, and a + b/1048575 <= VCO / (freq r) < a + (b + 1)/1048575 |
| Multisynth.P1 | Final2.py:172 | P1 lies between 128 a - 512 and 128 a - 512 + 128 for 0 <= b < c |
| Multisynth.P2 | Final2.py:173 | P2 is the remainder of 128 b by c, so 0 <= P2 < c |
| Multisynth.SelectR | Final2.py:138-153 | Below 500 kHz the R index is the search's; from 500 kHz on it is 0 (R = 1) without a test |
| Multisynth.Fractional | Final2.py:165-176 | The fractional plan for R index k has P3 = c, c either 1 or 1048575, 0 <= P2 < c, divby4 = 0 and R = RValues[k] with r_div = k |
| Multisynth.PlanWithR | Final2.py:134-176 | The planner shared by the programs (c reduced to 1 for b = 0 or not); its outcomes are stated by `PlanFailsExactly`, `PlanPicksSmallestR`, `PlanDivBy4Band` and `PlanFractional` |
| Multisynth.PlanFailsExactly | Final2.py:131-150 | The planner fails with OutOfRange exactly outside 2500 .. 200000000, and with NoValidDivider exactly for 2500 .. 3051 |
| Multisynth.PlanPicksSmallestR | Final2.py:138-153 | R = 2^r_div with r_div in 0..7; below 500 kHz it is the smallest power of two in range, and from 500 kHz on it is 1 |
| Multisynth.PlanDivBy4Band | Final2.py:155-164 | For 150 MHz < freq <= 200 MHz the plan is `DivBy4Plan`: a = 4, b = 0, c = 1, P1 = 0, P2 = 0, P3 = 1, divby4 = 3, integer mode |
| Multisynth.PlanFractional | Final2.py:165-176 | Below the band: a = VCO div (freq r); b approximates the fraction from below; c = 1 for b = 0 exactly when c is reduced, else 1048575; P1 + 512 = 128 a + floor(128 b / c); P2 = 128 b mod c < c; P3 = c; divby4 = 0; integer mode iff b = 0 and a is even |
| Multisynth.PlanFitsRegisters | Final2.py:172-174 | A planned a lies in 4..2048, so P1 fits its 18 bits and P2 and P3 their 20 |
| Multisynth.WholePartInRange | Final2.py:144 | For a planned R below the band, a = VCO div (freq R) lies in 5..2048 |
| Encoding.MsBlock | Final2.py:181-188 | The eight bytes decode back to the low 20 bits of P3 and P2 and the low 16 bits of P1, with byte 2 passed through |
| Encoding.P1RoundTrip | Final2.py:183-185 | When byte 2 carries P1[17:16], the bytes give back P1 modulo 2^18 |
| Encoding.Byte2AtBit2 | Final2.py:183 | With divby4 < 4, byte 2 is 16 r_div + 4 divby4 + P1[17:16], and the chip reads r_div, divby4 and P1[17:16] back from bits 6:4, 3:2 and 1:0 |
| Encoding.Byte2AtBit3 | hardkod.py:177 | With `divby4 << 3`: for divby4 = 0 the byte is Final2.py's, and for r_div = 0 it is 8 divby4 + P1[17:16] |
| Encoding.DivBy4AtBit3Misread | hardkod.py:177 | Divide-by-4 (divby4 = 3, r_div = 0) through the bit-3 layout is read by the chip as R_DIV = 1 and MSx_DIVBY4 = 2, not 3 |
| Encoding.Bit3FieldsCollide | hardkod.py:177 | The shifted divby4 overlaps r_div's bit 4: r_div = 1 with divby4 = 3 gives 0x18, not 0x28 |
| Encoding.ControlByte | Final2.py:190 | The control byte sets MSx_INT exactly for integer mode; the output is powered up and not inverted, sourced from PLLA and its own Multisynth, with 8 mA drive |
| Encoding.EnableOutputBits | Final2.py:192-193 | `(reg3 & 0xF8) & ~(1 << clk)` keeps bits 7:3 and clears all of bits 2:0 |
| Encoding.DisableOutputBits | Final2.py:318-319 | `(reg3 & 0xF8) \| (1 << clk)` keeps bits 7:3 and of bits 2:0 sets only bit `clk` |
| Encoding.EnableAndDisableDoNotIsolate | Final2.py:304-305 | After either command each of the other two channels is enabled, whatever it was before; off sets bit `clk`; off after on equals off |
| Encoding.EnableExample | Final2.py:304-305 | Enabling CLK0 from 0x06 (CLK1 and CLK2 off) gives 0x00, enabling all three |
| Channel.ChannelWrites | Final2.py:181-190 | The nine writes are bytes[i] to base_reg + i, then the control byte to 16 + clk, with no register listed twice |
| Channel.ChannelWritesFrame | Final2.py:181-190 | The nine channel writes access and change only the channel's registers |
| Channel.ChannelImage | Final2.py:181-190 | When all nine writes returned, the channel's registers hold the bytes and the control byte |
| Channel.SetOutput | Final2.py:192-193 | The register-3 read-modify-write keeps the bus well formed |
| Channel.SetOutputEffect | Final2.py:304-305 | The update accesses only register 3 and changes no other register; when it returns, the retried read of register 3 succeeded and register 3 holds exactly the byte that read returned with bits 2:0 all clear (on, `EnableOutputBits`) or only bit `clk` set (off, `DisableOutputBits`) |
| Channel.SetOutputConfirmed | hardkod.py:261-262 | With read-back, a returning update's last access read register 3 and got the byte it now holds |
| Channel.ProgramChannel | Final2.py:181-193 | Programming a channel keeps the bus well formed |
| Channel.ProgramChannelEffect | Final2.py:181-193 | Programming a channel touches only its nine registers and register 3; when it returns they hold the bytes, the control byte and a register 3 with bits 2:0 clear |
| Channel.SetOutputOn | Final2.py:192-193 | The method form computes exactly `SetOutput` |
| Channel.ProgramChannelOn | Final2.py:181-193 | The method form computes exactly `ProgramChannel` |
| Final2.WriteRegisterRules | Final2.py:13-31 | Only the self-clearing candidates skip the read-back; a write that is not read back logs only raw writes of the value; any write raises only after its 5 attempts |
| Final2.Plan | Final2.py:134-176 | Final2.py plans with c reduced to 1 for b = 0; `PlanReducesDenominator` and `PlanIsEncodable` state what that gives |
| Final2.Byte2 | Final2.py:183 | Byte base+2 is 16 r_div + 4 divby4 + P1[17:16], its low two bits P1[17:16] |
| Final2.PlanReducesDenominator | Final2.py:169-174 | c = 1 exactly when b = 0, otherwise 1048575; an integer ratio has P2 = 0 and P3 = 1 |
| Final2.PlanIsEncodable | Final2.py:155-176 | Every plan has r_div in 0..7 and divby4 equal to 0 or 3 |
| Final2.ChannelBytes | Final2.py:181-188 | The eight bytes written to base_reg .. base_reg + 7 |
| Final2.BlockEncodesPlan | Final2.py:178-188 | The bytes decode to P3, P1 (18-bit) and P2; byte base+2 reads back r_div from bits 6:4, divby4 from bits 3:2 and P1[17:16] from bits 1:0, with bit 7 clear |
| Final2.ChannelBytesDecode | Final2.py:181-188 | The same decoding for any plan whose fields fit their widths |
| Final2.PllCheck | Final2.py:195-205 | The PLLA reset followed by one status read keeps the bus well formed |
| Final2.PllCheckFrame | Final2.py:195-205 | The reset changes no register but 0xB1, which at most clears itself |
| Final2.Dump | Final2.py:209-217 | The diagnostic dump changes no register |
| Final2.DumpExtends | Final2.py:209-217 | The dump only appends to the log |
| Final2.SetFrequencyRun | Final2.py:130-217 | `set_frequency` keeps the bus well formed |
| Final2.ApplyPlan | Final2.py:181-217 | The steps after planning keep the bus well formed |
| Final2.SetFrequencyRejects | Final2.py:130-151 | No register is accessed exactly for a bad channel, a frequency outside 2500 .. 200000000, and 2500 .. 3051 Hz |
| Final2.SetFrequencyFrame | Final2.py:178-217 | `set_frequency` changes no register outside the channel's nine, register 3 and 0xB1, which at most clears itself |
| Final2.ApplyPlanFrame | Final2.py:181-217 | The same frame for any encodable plan |
| Final2.SetFrequencyProgramsChannel | Final2.py:178-217 | When `set_frequency` completes, the channel holds the plan's bytes and control byte and register 3 has CLK0..CLK2 enabled |
| Final2.ApplyPlanImage | Final2.py:181-217 | The same image for any encodable plan |
| Final2.ProgrammedSurvivesCheck | Final2.py:195-217 | The channel image survives the PLLA reset and the dump |
| Final2.PllReset | Final2.py:98-105 | The caught PLLA reset and read of 0xB1 keep the bus well formed |
| Final2.PllResetFrame | Final2.py:98-105 | It changes no register but 0xB1 |
| Final2.LockRound | Final2.py:108-121 | One round changes no register but 0xB7 and 0xB1; it ends with True only after one of its own status reads saw `(status & 0xA0) == 0`, and it goes on only when none did |
| Final2.LockPollEffect | Final2.py:108-110 | A round's polls end Ready with a passing status read last, or exhausted with no passing read |
| Final2.LockedRoundEffect | Final2.py:111-117 | The passing status read stays in the log through the MSNA dump, and no register changes |
| Final2.UnlockedRoundEffect | Final2.py:119-121 | The relock writes add no passing status read and change only 0xB7 and 0xB1 |
| Final2.LockRounds | Final2.py:107-126 | The rounds report True only after some status read saw the lock, and the timeout only when no status read of any round did |
| Final2.LockRoundsUnfold | Final2.py:107-121 | A round that ends decides the loop's result; otherwise the remaining rounds run |
| Final2.RelockFrame | Final2.py:120-121 | The relock writes touch 0xB7 and 0xB1 only |
| Final2.InitRun | Final2.py:45-126 | `initialize` keeps the bus well formed |
| Final2.InitSysInitTimeout | Final2.py:48-59 | False for SYS_INIT only when every access was a status read that failed or showed bit 7 set |
| Final2.InitCrystalMismatch | Final2.py:67-72 | False for the crystal load only when the last access read 0xB7 back as a byte other than 0xD2 |
| Final2.OutputWritesShape | Final2.py:74-90 | The output writes list no register twice, and MSNA 26..33 sits at positions 7..14 |
| Final2.OutputWritesStoreMsna | Final2.py:82-90 | When the output writes returned, registers 26..33 hold the ratio-32 image |
| Final2.InitProgramsPlla | Final2.py:82-126 | Once the lock rounds are reached, MSNA holds 00 01 00 0E 00 00 00 00 whatever they report; True only after a status read of its own with LOL_A and SYS_INIT both clear |
| Final2.ResetRun | Final2.py:221-251 | `reset_and_disable_clocks` keeps the bus well formed |
| Final2.ResetWritesShape | Final2.py:228-242 | The writes (`ResetWrites`) are register 3 = 0xFF, registers 16..23 = 0x80, 0xB1 = 0xA0 and register 1 = 0, each listed once; the last two are not read back |
| Final2.StatusNotReset | Final2.py:246 | Register 0 is not among the reset writes |
| Final2.ResetInOrder | Final2.py:226-251 | The reset's accesses come in list order, and the first write that raises ends it: nothing after that write is accessed |
| Final2.ResetDisablesClocks | Final2.py:226-251 | A completed reset leaves register 3 = 0xFF, registers 16..23 = 0x80, 0xB1 cleared and register 1 = 0; no other register changes in any outcome |
| Final2.CheckPll | Final2.py:195-205 | The method form computes exactly `PllCheck` |
| Final2.DumpChannel | Final2.py:209-217 | The method form computes exactly `Dump` |
| Final2.SetFrequency | Final2.py:130-217 | `set_frequency` over the device with 5 attempts computes exactly `SetFrequencyRun` |
| Final2.ResetPll | Final2.py:98-105 | The method form computes exactly `PllReset` |
| Final2.LockRoundOn | Final2.py:108-121 | One round over the device computes exactly `LockRound` with 50 polls |
| Final2.AwaitLock | Final2.py:107-126 | The `for attempt in range(3)` loop computes exactly `LockRounds` with 3 rounds |
| Final2.LockGiveUp | Final2.py:123-126 | The final read of 0xB7 and False compute exactly `LockRounds` with no rounds left |
| Final2.Initialize | Final2.py:45-126 | `initialize` over the device computes exactly `InitRun` with 5 attempts |
| Final2.ResetAndDisableClocks | Final2.py:221-251 | The method computes exactly `ResetRun` with 5 attempts |
| Hardkod.WriteRegisterRules | hardkod.py:14-32 | A returning write ends with the read-back of the value; a raise comes only after `retries` attempts; a nonzero write to a self-clearing register raises unless the chip answers with that byte |
| Hardkod.PllResetCaught | hardkod.py:59-63 | The caught write of 0xB1 keeps the bus well formed |
| Hardkod.PllResetCaughtFrame | hardkod.py:94-98 | It accesses only 0xB1 and changes no other register; 0xB1 at most clears itself |
| Hardkod.Plan | hardkod.py:130-169 | hardkod.py plans with c kept at 1048575; `PlanKeepsDenominator` and `PlanIsEncodable` state what that gives |
| Hardkod.PlanKeepsDenominator | hardkod.py:160-169 | Below the band c = P3 = 1048575 even for b = 0, so an integer divider goes out as P1 = 128 a - 512 and P2 = 0 |
| Hardkod.PlanIsEncodable | hardkod.py:135-169 | Every plan is encodable, and divby4 is nonzero exactly above 150 MHz, where R = 1 |
| Hardkod.Byte2 | hardkod.py:177 | Byte base+2 is the plain sum 16 r_div + 8 divby4 + P1[17:16] |
| Hardkod.ChannelBytes | hardkod.py:175-182 | The eight bytes written to base_reg .. base_reg + 7 |
| Hardkod.BlockEncodesPlan | hardkod.py:171-182 | The bytes give back P3, P1 and P2; below the band the chip reads r_div and divby4 = 0, but in the divide-by-4 band it reads R_DIV = 1 and MSx_DIVBY4 = 2 |
| Encoding.BlockFields | hardkod.py:175-182 | Bytes around a byte 2 carrying P1[17:16] give back P1, P2 and P3 |
| Hardkod.Byte2Fields | hardkod.py:177 | A byte 16 r + t with r < 8 and t < 4 holds r in bits 6:4 and 0 in bits 3:2 |
| Hardkod.Dump | hardkod.py:206-213 | The dump changes no register |
| Hardkod.DumpOnlyReads | hardkod.py:206-213 | The dump makes read transactions only |
| Hardkod.SetFrequencyRun | hardkod.py:120-213 | `set_frequency` keeps the bus well formed |
| Hardkod.Finish | hardkod.py:192-213 | The steps after the channel writes keep the bus well formed |
| Hardkod.FinishEffect | hardkod.py:192-213 | After the channel writes nothing changes but 0xB1; when it reports a status, that status read is in the log and only reads follow it |
| Hardkod.SetFrequencyRejects | hardkod.py:127-142 | No register is accessed exactly for a bad channel, a frequency outside 2500 .. 200000000, and 2500 .. 3051 Hz |
| Hardkod.SetFrequencyFrame | hardkod.py:171-213 | No register changes outside the channel's nine, register 3 and 0xB1, which at most clears itself |
| Hardkod.SetFrequencyProgramsChannel | hardkod.py:171-213 | When `set_frequency` runs to the end, the channel holds the plan's bytes and control byte and register 3 has CLK0..CLK2 enabled, whatever the status showed |
| Hardkod.SetFrequencyIgnoresLock | hardkod.py:198-201 | The lock check does not act on its status: the read is in the log and only reads follow it, so nothing is rolled back |
| Hardkod.ProgrammedSurvivesReset | hardkod.py:192-196 | The channel image survives a stretch that changes only 0xB1 |
| Hardkod.SetCommand | hardkod.py:247-251 | The `set` command runs set_frequency on four times its argument and keeps the bus well formed; its range is `SetCommandRange`'s |
| Hardkod.SetCommandRange | hardkod.py:251 | Through the 4x scaling, arguments below 625 or above 50000000 fail the range check, and 625 .. 762 fail the R search |
| Hardkod.InitRun | hardkod.py:47-116 | `initialize` keeps the bus well formed |
| Hardkod.AwaitLock | hardkod.py:94-114 | The reset, the polls and the dump keep the bus well formed |
| Hardkod.AwaitLockReport | hardkod.py:100-114 | The polls change no register but 0xB1; the lock is reported only after a status read with LOL_A and SYS_INIT clear, the timeout only when the last accesses were unlocked status reads |
| Hardkod.OutputWritesShape | hardkod.py:74-91 | The writes list no register twice: 0x0F, 0xBB, MSNA 26..33, then register 22 = 0x40 |
| Hardkod.OutputWritesStore | hardkod.py:74-91 | When they returned, 0x0F = 0, MSNA 26..33 hold the ratio-32 image and register 22 = 0x40 |
| Hardkod.InitReportsLock | hardkod.py:100-116 | `initialize` reports the lock only after a status read with LOL_A and SYS_INIT clear, and gives up only after status reads that each failed or showed LOL_A or SYS_INIT set |
| Hardkod.InitWritesOutputs | hardkod.py:66-108 | Once the polls are reached, register 3 = 0xFF, 0xB7 = 0xD2, 0x0F = 0, MSNA 26..33 hold the ratio-32 image and register 22 = 0x40, locked or not; the crystal-load read is only printed |
| Hardkod.ResetPllCaught | hardkod.py:94-98 | The method form computes exactly `PllResetCaught` |
| Hardkod.DumpChannel | hardkod.py:206-213 | The method form computes exactly `Dump` |
| Hardkod.SetFrequency | hardkod.py:120-213 | `set_frequency` over the device with 3 attempts computes exactly `SetFrequencyRun` |
| Hardkod.Initialize | hardkod.py:47-116 | `initialize` over the device with 3 attempts computes exactly `InitRun` |
| TestVerzija.Plan | testVerzija.py:70-90 | testVerzija.py's planner, R fixed at 1 and divby4 = 3 for a = 4; `PlanWithoutR` states its outcomes |
| TestVerzija.PlanWithoutR | testVerzija.py:70-90 | The plan fails exactly outside 2500 .. 200000000; otherwise R = 1, a = VCO div freq, c = P3 = 1048575, P1 + 512 = 128 a + floor(128 b / c), P2 = 128 b mod c, integer mode iff b = 0 and a even, divby4 = 3 exactly when a = 4, that is above 160 MHz |
| TestVerzija.PlanOverflowsP1 | testVerzija.py:82 | P1 fits its 18 bits exactly from 389864 Hz on; below that, a > 2051 pushes it past 2^18 |
| TestVerzija.RatioBelow2052 | testVerzija.py:75-76 | a = VCO div freq is at most 2051 exactly when freq >= 389864 |
| TestVerzija.Byte2 | testVerzija.py:98 | Byte base+2 is 8 divby4 + P1[17:16], with no R field |
| TestVerzija.ChannelBytes | testVerzija.py:96-103 | The eight bytes written to base_reg .. base_reg + 7 |
| TestVerzija.BlockDecodes | testVerzija.py:92-103 | The chip reads P3 = 1048575, P2 as planned and P1 only modulo 2^18; it reads R_DIV = MSx_DIVBY4 = 0 when a != 4, but R_DIV = 1 and MSx_DIVBY4 = 2 when a = 4 |
| TestVerzija.PlannedBlockDecodes | testVerzija.py:96-103 | The same decoding for any plan with c = 1048575 and P2 below it |
| TestVerzija.Byte2Decodes | testVerzija.py:98 | Byte 2 reads as R_DIV = 0, MSx_DIVBY4 = 0 for divby4 = 0, and 1 and 2 for divby4 = 3 |
| TestVerzija.SetWrites | testVerzija.py:92-110 | The channel's nine writes then the PLL reset 0xB1 = 0x20; `SetWritesShape` states their order and that none is read back |
| TestVerzija.SetWritesShape | testVerzija.py:96-110 | Ten writes, none listed twice, none read back: the channel's nine, then 0xB1 = 0x20 last |
| TestVerzija.SetFrequencyRun | testVerzija.py:60-112 | `set_frequency` keeps the bus well formed |
| TestVerzija.SetFrequencyRejects | testVerzija.py:66-72 | No access is made exactly for a bad channel and a frequency outside 2500 .. 200000000 |
| TestVerzija.SetFrequencyFrame | testVerzija.py:92-110 | Only writes, only to the channel's nine registers and 0xB1; register 3 is neither read nor written, and every other register keeps its value |
| TestVerzija.SetFrequencyResetsLast | testVerzija.py:110 | No channel register is written after 0xB1 |
| TestVerzija.SetFrequencyImage | testVerzija.py:92-110 | When every write returned, the channel holds the plan's bytes and control byte and 0xB1 has cleared itself |
| TestVerzija.InitRun | testVerzija.py:23-56 | `initialize` keeps the bus well formed |
| TestVerzija.InitWritesShape | testVerzija.py:30-53 | `InitWrites` is ten writes, none read back: 0xB7, 0x0F, 0xBB, MSNA 26..30 only, 22 = 0x40, then 0xB1 = 0x20 |
| TestVerzija.InitFrame | testVerzija.py:30-53 | `initialize` only writes, and registers it does not list (MSNA 31..33 in particular) keep their values |
| TestVerzija.InitImage | testVerzija.py:30-53 | When all writes returned: 0xB7 = 0xD2, 0x0F = 0, MSNA 26..30 as for ratio 32, 22 = 0x40 and 0xB1 cleared |
| TestVerzija.OutputCommand | testVerzija.py:155-156 | The on/off command keeps the bus well formed |
| TestVerzija.OutputCommandEffect | testVerzija.py:155-168 | An on or off command makes at most a single read of register 3, then a single unverified write of it, and changes no other register; when it returns it made both, and register 3 holds the byte the read returned with bits 2:0 all clear (on) or only bit `clk` set (off) |
| TestVerzija.SetFrequency | testVerzija.py:60-112 | The method form computes exactly `SetFrequencyRun` |
| TestVerzija.Initialize | testVerzija.py:23-56 | The method form computes exactly `InitRun` |
| SetF.SetFrequencyRun | setF.py:1-67 | `set_frequency` keeps the bus well formed |
| SetF.ApplyPlan | setF.py:46-67 | The steps after planning keep the bus well formed |
| SetF.SetFrequencyRejects | setF.py:1-22 | No register is accessed exactly for a bad channel, a frequency outside 2500 .. 200000000, and 2500 .. 3051 Hz |
| SetF.SetFrequencyOrder | setF.py:50-67 | Only the channel's nine registers, register 3 and 0xB1 are accessed, and once 0xB1 is accessed no other register is; all others keep their values |
| SetF.ApplyPlanOrder | setF.py:50-67 | The same access order for any encodable plan |
| SetF.SetFrequencyImage | setF.py:46-64 | When every write returned, the channel holds hardkod.py's image and register 3 has bits 2:0 clear |
| SetF.ApplyPlanImage | setF.py:50-67 | The same image for any encodable plan |
| SetF.ResetDecides | setF.py:67 | A returning call ends with 0xB1 cleared: after its own raw write without read-back, or after a read-back that answered 0x20, which the self-clearing register never holds itself |
| SetF.ApplyPlanReset | setF.py:67 | The same for any encodable plan |
| SetF.SetFrequency | setF.py:1-67 | The method form computes exactly `SetFrequencyRun` |

## Left out

- `user_command_loop` and `main` of every program are left out: input parsing, console output and the
  opening of `smbus.SMBus`. Only the register-3 expressions of `on` and `off` and hardkod.py's `4*freq`
  scaling (`Hardkod.SetCommand`) are modelled.
- main.py and arduino.c are not part of this model. They relay text over a serial port to a
  MAX2870 and share no logic with the clock driver.
- `time.sleep` is a no-op, and `print` output is not modelled. Where a program returns
  something only through a print, the model returns it as a result: the statuses, and the byte
  read back from 0xB7.
- Python floats are replaced by exact integers. Rounding differences of `VCO_FREQ / freq`,
  `fractional * 1048575` and the `8 <= ms_div <= 2048` comparisons at boundaries are not
  reproduced.
- The physical chip is not modelled. PLL lock, crystal behaviour and bus errors come from the
  oracle, so no timing of the self-clearing register and no PLL dynamics are modelled.
- The REVID extraction at Final2.py:61-62 is diagnostic only and is left out.
- Final2.InitRun: the MSNA read-back at Final2.py:92-96 is performed, but its mismatches are only printed, so the model keeps the reads and drops the comparison.
- Final2.LockRound: the poll count is a parameter; the 50 polls of Final2.py:108 are fixed by `LockRoundOn` and `AwaitLock`.
- SetF.SetFrequencyRun: setF.py uses `write_register` and `read_register` without defining them, so the attempts per call and which writes are read back are parameters.
- Concurrency: none of the programs shares the bus, and the model assumes one caller.
