# Binocular rivalry experiment: schedule, response logging and command line

This project models, in Dafny, the sequential core of a binocular-rivalry
psychophysics experiment. In a rivalry trial the subject sees an ambiguous
house/face image and reports each switch of what they perceive. In an
unambiguous trial the subject sees a plain house or a plain face. The model
covers three pieces:

- **The block/trial schedule** (`session.py`, module `Session`). At start-up
  the session resets its three response counters. It then picks a start
  condition from the parity of the subject ID and builds its trial list block by
  block. A block is either one rivalry trial (`rivalry` / `house_face`) or
  `nr_unambiguous_switches` unambiguous trials. Unambiguous trials show a
  `house` on an even running trial number and a `face` on an odd one.
  `CreateBlocks` is a method on the class `BinocularRivalrySession`. It
  appends to `trialList` in two nested loops, as the program does; the list is
  a sequence, so each append reassigns the field. It is proved equal to `Schedule`, a block-by-block definition. Lemmas then derive
  the numbering, the labels and the length of the list from `Schedule`.
- **Response handling** (`trial.py`, modules `Trial` and `Session`). `get_events`
  receives a batch of time-stamped key presses. If the exit key is among them,
  the session is closed. Otherwise each press, in order, updates the session's
  counters by the trial's block type and appends one row to the session's log.
  `GetEvents` is a method of the session class, because it changes the
  session's counters and log. Its contract ties the new state to `ScoreKeys`
  and `RowsFor`, two functions on values, and lemmas state what those give.
- **Command-line naming** (`main.py`, module `CommandLine`). The subject ID is
  the integer value of the first digit run that directly follows a `-`. The
  output base name is `subject + "_" + session`. The output directory is
  `./output_data/<base>_Logs`, with a 14-digit time stamp appended when that
  directory already exists.

Two details of the code are modelled exactly as written:

- The block test `block_ID + self.start_condition % 2 == 0` parses as
  `block_ID + (start_condition % 2) == 0`. So only block 0 of an even subject
  is a rivalry block, and every other block is unambiguous
  (`RivalryBlockIff`, `RivalryBlocksCount`). The comment above the test
  (session.py:74) says even subjects start with rivalry and odd subjects with
  unambiguous, which suggests block types were meant to alternate. The model
  follows the code.
- A rivalry key press runs `self.session.rivalry_responses =+ 1`. That assigns
  `+1`, so the rivalry counter becomes 1 instead of going up by one
  (`ScoreKeysEffect`). The `+= 1` on the neighbouring counters suggests an
  increment was meant. The model follows the code.

Labels are closed datatypes, not strings. `BlockType` is `Rivalry`,
`Unambiguous` or `OtherBlock(name)`. `OtherBlock` keeps the scorer's path for
any other label. `TrialType` is `HouseFace`, `House` or `Face`, the only trial
types the program creates. A trial's parameter dictionary
`{'block_type': ..., 'trial_type': ...}` is the record `Parameters(blockType,
trialType)`, so it holds exactly those two entries by construction.

## Model

| member | source | states |
|---|---|---|
| Trial.NewTrial | trial.py:23-30 | a new trial's `ID` and `trial_nr` both equal the given number, it stores the given block and trial type, and its parameters are exactly `block_type` and `trial_type` |
| Trial.ContainsKey | trial.py:42 | true exactly when some key press in the batch has the given key (the exit-key test) |
| Trial.RowsFor | trial.py:50-72 | a batch of key presses yields exactly one log row per press, in the order of the presses |
| Trial.RowsForAt | trial.py:61-72 | row k of a batch has `event_type` = the trial type, the trial's `trial_nr`, `onset` = the time of press k, the current phase, `response` = key k, `nr_frames` = 0, and the trial's `block_type` and `trial_type` |
| Trial.ScoreKeysEffect | trial.py:54-59 | after n presses: in an unambiguous trial the unambiguous and total counters each go up by n; in a rivalry trial the total goes up by n and the rivalry counter is 1 once n > 0 (assignment, not increment); for any other block type nothing changes |
| Trial.ScoreKeysConsistent | trial.py:54-59 | scoring keeps the counters consistent: 0 <= unambiguous <= total, rivalry is 0 or 1, and rivalry <= total - unambiguous |
| Session.RivalryBlockIff | session.py:66-76 | the start condition is 0 exactly for an even subject and 1 otherwise; a block is a rivalry block exactly when it is block 0 and the subject is even |
| Session.BlockTrialsShape | session.py:76-94 | a rivalry block appends exactly one trial (`rivalry`, `house_face`, numbered on); an unambiguous block appends exactly `nr_unambiguous_switches` trials, all `unambiguous`, numbered on consecutively, `house` on even numbers and `face` on odd ones |
| Session.UnambiguousTrialsAt | session.py:87-94 | an unambiguous run of `count` trials from number `first` has length `count`, and its k-th trial is number first + k with the house/face type chosen by the parity of that number |
| Session.RivalryBlocksCount | session.py:71-76 | among the first n blocks there is one rivalry block if n > 0 and the start condition is even, else none |
| Session.ScheduleLength | session.py:70-94 | the trial list's length is the number of rivalry blocks plus `nr_unambiguous_switches` times the number of unambiguous blocks (a negative setting counts as 0, as `range` does) |
| Session.ScheduleAt | session.py:70-94 | trial k of the list has number and id k; it is the rivalry `house_face` trial exactly when k = 0 and the start condition is even; every other trial is unambiguous, `house` when k is even and `face` when k is odd; its parameters are its block and trial type |
| Session.EvenSubjectStartsWithRivalry | session.py:66-80 | for an even subject and at least one block, the list is non-empty and starts with the rivalry `house_face` trial |
| Session.BinocularRivalrySession.constructor | session.py:21-52 | stores the subject ID and the block, switch and exit-key settings, starts with an empty log, and builds the schedule as `CreateBlocks` does |
| Session.BinocularRivalrySession.CreateBlocks | session.py:56-94 | afterwards all three response counters are 0, the start condition is 0 for an even subject and 1 for an odd one, and the trial list is `Schedule` of the settings; the loop keeps the running trial number equal to the list's length |
| Session.BinocularRivalrySession.GetEvents | trial.py:38-72 | reports an exit exactly when the exit key is in the batch; then the session is closed and neither counters nor log change; otherwise the counters become `ScoreKeys` of the old counters over the batch, and the log becomes the old log followed by one row per press, so earlier rows are unchanged and each new row lands at the previous row count; counters that were consistent (see `ScoreKeysConsistent`) stay consistent, in both cases |
| CommandLine.FindMatch | main.py:25 | returns the first position at or after `from` where a `-` is directly followed by a digit, or none when there is no such position |
| CommandLine.DigitRun | main.py:25 | returns the longest prefix of digits (greedy `\d+`): a prefix, all digits, and not followed by a digit |
| CommandLine.DigitRunOfNumeral | main.py:25 | a digit string followed by nothing or by a non-digit is read whole |
| CommandLine.ExtractSubjectID | main.py:25 | fails exactly when no `-` is followed by a digit; otherwise returns the value of the maximal digit run after the first such `-` |
| CommandLine.DecimalValueOfNatToString | main.py:25 | reading back the decimal numeral of n gives n |
| CommandLine.LeadingZeroDropped | main.py:25 | a leading zero does not change the value read (`int` drops leading zeros) |
| CommandLine.FirstMatchAfterPrefix | main.py:25 | after a prefix with no match, the `-` that precedes a digit gives the first match |
| CommandLine.ExtractSubjectIDRoundTrip | main.py:25 | a subject written as prefix + `-` + str(n) + suffix, with no match in the prefix and no digit at the start of the suffix, yields n |
| CommandLine.ExtractSubjectIDExamples | main.py:25 | `sub-01` yields 1 and `sub01` yields no subject ID |
| CommandLine.ZeroPad | main.py:36 | a number below 10^width is written with exactly `width` digits, and those digits read back as the number |
| CommandLine.TimestampFields | main.py:36 | the `%Y%m%d%H%M%S` time stamp is 14 digits, and year, month, day, hour, minute and second each read back from their positions |
| CommandLine.ResolveOutputDir | main.py:27-36 | when the directory does not exist, the output directory is `./output_data/` + base + `_Logs`; when it exists, that name is a strict prefix of the new one, which is 14 characters longer and ends in digits: exactly the directory name followed by the `%Y%m%d%H%M%S` time stamp of the current time (see `TimestampFields`) |
| CommandLine.ParseCommandLine | main.py:21-36 | a missing subject or session argument is an error naming the missing index; otherwise the result is an error exactly when the subject has no `-` followed by a digit; on success it gives the extracted subject ID, the base name subject + `_` + session, the resolved output directory, the settings file `./settings.yml` and the eyetracker switched off |

## Left out

- Stimulus creation and drawing (`create_stimulus`, `draw_stimulus`, `BRTrial.draw`) and the session's `run` loop are left out. They are rendering and framework-driven playback.
- Key capture (`event.getKeys`) is not modelled. The batch of `(key, time)` pairs is a parameter of `GetEvents`.
- A trial's current `phase` is kept by the presentation framework, so it is a parameter of `GetEvents`.
- The screenshot, `close` and `quit` on the exit key are reduced to the session's `closed` flag and the `exited` result. Quitting ends the process, so nothing after it is modelled.
- The framework's `Session`/`Trial` base classes and the pandas `global_log` are not modelled. The log is a sequence of `LogRow` records holding only the columns `get_events` writes. Row labels are taken to be 0 .. n-1, so a new row at label `shape[0]` is an append.
- Reading the settings file is left out. The block count, switch count and exit key are constructor parameters. The stimulus durations, stimulus path and screenshot directory are not used by the modelled code and are left out.
- Directory creation, the directory-existence check and `datetime.now()` are I/O and a clock. Existence is a boolean parameter and the current time is a `DateTime` parameter.
- The session constructor's argument count does not match its call in `main.py` (an extra `eyetracker_on`), and `BRTrial` is built without its `phase_duration` argument. Both would fail at run time; trials are modelled as plain records instead.
- `print` calls are not modelled.
- CommandLine.ExtractSubjectID: Python's `\d` and `int` also accept non-ASCII decimal digits; the model accepts ASCII digits `0`-`9` only. The interpreter-dependent limit on `int()` (recent Python versions raise `ValueError` for a numeral over 4300 digits) is not modelled: the subject ID is unbounded, so a match is never an error here, and `ExtractSubjectIDRoundTrip` holds for numerals of any length.
- CommandLine.ResolveOutputDir: requires a time with a year from 1000 to 9999, where `%Y` is exactly four digits; other years are not modelled.
- CommandLine.ParseCommandLine: requires the same year range, for the same reason. It also inherits the unbounded subject ID: a digit run over 4300 digits, on which recent Python versions raise `ValueError`, gives `Ok` here, not an error.
- Trial types: only the three trial types the program creates can be represented. Block types keep an `OtherBlock` case because the scorer has a path for it.
