# bms-to-ffbeast: telemetry bridge model

bms-to-ffbeast reads the flight simulator's two shared-memory records,
`FlightData` and `IntellivibeData`, every 10 ms. From them it builds one
text line and sends it over UDP to a force-feedback controller. This
project models the logic of `src/main.rs` in Dafny and proves what each
tick sends:

- **Snapshots** (`Snapshots.dfy`): the two records, reduced to the fields
  the bridge reads. The outcome of opening a segment is `Opened(handle)` or
  `Unavailable`.
- **Record format** (`RecordFormat.dfy`): the line's shape. It is a tag,
  then each field preceded by `;`, then `\n`. A parser (`Split`,
  `ParseRecord`) reads such a line back. The round trip through it is proved.
- **Transform** (`Transform.dfy`): `compute_is_on_ground`,
  `compute_actual_flight_data`, `compute_zero_data`, and the choice between
  the live line and the zero line in `send_flight_data_to_the_socket`.
- **Acquisition** (`Acquisition.dfy`): the retry-until-open start-up waits,
  written as a loop over the outcomes of successive opens.
- **Main loop** (`MainLoop.dfy`): the tick loop over a sequence of snapshot
  pairs. It stops at the first `exit_game`. `Run` puts start-up and the
  loop together as `main` does.

Flight values are f32 in the program. Here they are `real`, and the
scalings are exact products. The `{:.2}` rendering of a value is a
parameter `render: real -> string`. The suppression rule
(`SuppressionRule`) holds for every renderer. Two assumptions about the
renderer appear only where a lemma needs them, and both are true of `{:.2}`:

- `FieldSafe`: a rendering never contains `;` or `\n`. The lemmas that
  read the live line back need it.
- `render(0.0) != "0"`: `{:.2}` prints `0.00`. Only
  `ChooseLineZeroIffSuppressed` makes this assumption, to conclude that
  the zero line is sent exactly when a suppressing flag is set. The program runs forever. Its inputs, the
snapshots and the open outcomes, are therefore finite sequences. A sequence
that ends before an exit, or before a successful open, stands for a run
that has not finished yet (`StillRunning`, `StillWaiting`, `Waiting`,
`NotStarted`).

Behaviour worth knowing, as the code has it:

- The zero line passes integer literals to `{:.2}`. Rust ignores precision
  for integers, so the line is `bms;0;0;0;0;0;0;0;0;0\n` and not nine
  `0.00` fields. The live line with all-zero inputs prints its zeros through
  `render`. `ZeroLineVersusRenderedZeros` proves that the two lines are
  equal exactly when `render(0.0)` is `"0"`. With `{:.2}` it is `"0.00"`,
  so the two lines differ.
- The vertical speed is `z_dot * 0.3048`. That converts feet to metres, not
  to km/h. The model keeps the multiplication as written.
- `on_ground` is sent as the rendering of 1.0 or 0.0, and `flaps` as the
  rendering of 0.0.

## Model

| member | source | states |
|---|---|---|
| `RecordFormat.RecordRoundTrip` | src/main.rs:83-85 | a line built as tag, `;`-prefixed fields and `\n` parses back into exactly that tag and those fields, in order, when none of them holds `;` |
| `RecordFormat.SingleTerminator` | src/main.rs:84 | when neither the tag nor any field holds `\n`, such a line ends with `\n` and that is its only newline |
| `RecordFormat.RecordSeparatorCount` | src/main.rs:84 | when neither the tag nor any field holds `;`, such a line holds exactly one `;` per field |
| `Transform.ComputeIsOnGround` | src/main.rs:65-71 | the indicator is 1.0 exactly when `on_ground` is set and 0.0 exactly when it is not |
| `Transform.ComputeZeroData` | src/main.rs:89-92 | the zero line parses back into the tag `bms` and nine fields that are each the single character `0` |
| `Transform.ZeroLineIsRecord` | src/main.rs:89-91 | the literal `bms;0;0;0;0;0;0;0;0;0\n` is the record of tag `bms` with nine `0` fields |
| `Transform.LiveLineLayout` | src/main.rs:73-86 | the live line parses back into `bms` and nine fields in this order: kias×1.852, z_dot×0.3048, alpha, g_force, gear_pos, speed_brake×100, 0, rpm, the on-ground indicator |
| `Transform.LiveLineShape` | src/main.rs:83-85 | the live line starts with `bms`, holds exactly nine `;` and ends with its only `\n` |
| `Transform.FlapsAlwaysZero` | src/main.rs:80 | the flaps field is the rendering of 0 and is the same for any two pairs of snapshots |
| `Transform.OnGroundIsLastField` | src/main.rs:82-85 | the last of the ten pieces of the live line is the rendered on-ground indicator |
| `Transform.SuppressionRule` | src/main.rs:94-99 | for every renderer: with `paused`, `ejecting` or `end_flight` set, the zero line is chosen whatever the flight snapshot holds; otherwise the live line is chosen |
| `Transform.ChooseLineZeroIffSuppressed` | src/main.rs:94-99 | for a renderer that keeps fields free of `;` and `\n` and does not print 0.0 as `0`, the line chosen is the zero line exactly when `paused`, `ejecting` or `end_flight` is set |
| `Transform.ZeroLineVersusRenderedZeros` | src/main.rs:83-91 | the live line for all-zero snapshots equals the zero line exactly when `render(0.0)` is `"0"` |
| `Acquisition.FirstOpened` | src/main.rs:36-54 | the wait is still going exactly when every open so far failed. When it returns, it gives the handle of the first successful open and the number of failures before it |
| `Acquisition.WaitForOpen` | src/main.rs:36-54 | the retry loop returns the outcome of the recursive definition: the first opened handle, after only failed opens, and never a failure |
| `Acquisition.FailuresOnlyDelay` | src/main.rs:42 | k failed opens leave the outcome that of the remaining attempts, shifted by k |
| `Acquisition.Startup` | src/main.rs:17-18 | start-up completes exactly when both segments eventually open, and then holds the handles of their first successful opens |
| `MainLoop.FirstExit` | src/main.rs:25-33 | the index of the first tick with `exit_game`, or the number of ticks when there is none; no earlier tick has it set |
| `MainLoop.RunMainLoop` | src/main.rs:24-34 | the loop sends the reference sequence of lines. It stops at the first tick whose `exit_game` is set, and keeps running when no tick sets it; it never reports `NotStarted` |
| `MainLoop.SentLinesPerTick` | src/main.rs:25-33 | exactly one line per tick before the first exit, each the line chosen for that tick's snapshots |
| `MainLoop.NothingSentFromExitOn` | src/main.rs:28-29 | ticks at and after an exit tick contribute nothing to what is sent |
| `MainLoop.NoExitKeepsSending` | src/main.rs:25-33 | with no exit, every tick sends a line, and later ticks only add lines after the earlier ones |
| `MainLoop.Run` | src/main.rs:17-20 | while a segment has not opened, nothing is sent and the run is `NotStarted`; once both are open, the lines and the stopping tick are those of the main loop |

## Left out

- UDP socket creation, connect and send, and the ignored send error
  (src/main.rs:13-15, 56-63, 100-101): network I/O. `RunMainLoop` returns
  the lines it would send instead. `as_bytes` (ASCII text as UTF-8) is not
  modelled.
- `thread::sleep` and the 10 ms and 300 ms constants: timing only.
- Mapping the shared-memory segments and `read()` from the `bms_sm` crate.
  That crate is not part of this model. The snapshots are given as values,
  and the outcome of each open is given as an input.
- Torn reads while the simulator writes the segments: concurrency with
  another process, which this code does not handle.
- f32 arithmetic and `{:.2}` decimal rendering: values are reals, and
  rendering is the `render` parameter.
- The `#[tailcall]` recursion of the wait routines is modelled as a loop.
  `wait_for_flight_data` and `wait_for_intellivibe_data` are the same
  routine at two record types, modelled once as the generic `WaitForOpen`.
- The shutdown message printed after the loop: console output.
