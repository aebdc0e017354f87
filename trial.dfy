/**
 * The trial side of the binocular-rivalry experiment (trial.py): the trial
 * descriptor that BRTrial's constructor stores, the log row that each key
 * press produces, and how a key press moves the session's response counters.
 * The method that applies all of this to a session lives in module Session,
 * next to the state it changes.
 */
module Trial {

  /** The block types. The program uses the strings "rivalry" and
      "unambiguous"; the scorer also has a path for any other label. */
  datatype BlockType = Rivalry | Unambiguous | OtherBlock(name: string)

  /** The trial types: "house_face" (the rivalry stimulus), "house" and "face". */
  datatype TrialType = HouseFace | House | Face

  /** A trial's parameters, the two entries `block_type` and `trial_type`, which
      are copied into every log row the trial writes. */
  datatype Parameters = Parameters(blockType: BlockType, trialType: TrialType)

  /** A scheduled trial: what BRTrial.__init__ stores on the object. */
  datatype BRTrial = BRTrial(
    id: int,
    trialNr: int,
    blockType: BlockType,
    trialType: TrialType,
    parameters: Parameters)

  /** A captured key press: the key's name and its time stamp on the session clock. */
  datatype KeyPress = KeyPress(key: string, time: real)

  /** One row of the session's global log. */
  datatype LogRow = LogRow(
    eventType: TrialType,
    trialNr: int,
    onset: real,
    phase: int,
    response: string,
    nrFrames: int,
    parameters: Parameters)

  /** The session's response counters, as one value. */
  datatype Counters = Counters(unambiguous: int, rivalry: int, total: int)

  /** Constructing a trial (BRTrial.__init__): its ID is its trial number, and
      its parameters are exactly its block type and trial type. */
  function NewTrial(trialNr: int, blockType: BlockType, trialType: TrialType): (t: BRTrial)
    ensures t.id == trialNr && t.trialNr == trialNr
    ensures t.blockType == blockType && t.trialType == trialType
    ensures t.parameters == Parameters(blockType, trialType)
  {
    BRTrial(trialNr, trialNr, blockType, trialType, Parameters(blockType, trialType))
  }

  /** Whether `key` is among the keys of a batch of key presses. */
  function ContainsKey(events: seq<KeyPress>, key: string): (r: bool)
    ensures r <==> exists i :: 0 <= i < |events| && events[i].key == key
  {
    if events == [] then false
    else events[0].key == key || ContainsKey(events[1..], key)
  }

  /** The log row written for one key press during `trial` in phase `phase`. */
  function RowFor(trial: BRTrial, phase: int, ev: KeyPress): LogRow
  {
    LogRow(trial.trialType, trial.trialNr, ev.time, phase, ev.key, 0, trial.parameters)
  }

  /** The rows a batch of key presses appends, one per press, in order. */
  function RowsFor(trial: BRTrial, phase: int, events: seq<KeyPress>): (rows: seq<LogRow>)
    ensures |rows| == |events|
  {
    if events == [] then []
    else RowsFor(trial, phase, events[..|events| - 1]) + [RowFor(trial, phase, events[|events| - 1])]
  }

  /** Row k of a batch records key press k, with the trial's fixed fields. */
  lemma {:induction false} RowsForAt(trial: BRTrial, phase: int, events: seq<KeyPress>, k: int)
    requires 0 <= k < |events|
    ensures var row := RowsFor(trial, phase, events)[k];
      && row.eventType == trial.trialType
      && row.trialNr == trial.trialNr
      && row.onset == events[k].time
      && row.phase == phase
      && row.response == events[k].key
      && row.nrFrames == 0
      && row.parameters == trial.parameters
  {
    var n := |events|;
    if k < n - 1 {
      RowsForAt(trial, phase, events[..n - 1], k);
      assert events[..n - 1][k] == events[k];
    }
  }

  /** How one (non-exit) key press changes the counters, by the trial's block
      type. A rivalry press sets the rivalry counter to 1 rather than adding 1. */
  function ScoreKey(c: Counters, blockType: BlockType): Counters
  {
    var c' := if blockType == Unambiguous
              then c.(unambiguous := c.unambiguous + 1, total := c.total + 1)
              else c;
    if blockType == Rivalry
    then c'.(rivalry := 1, total := c'.total + 1)
    else c'
  }

  /** The counters after n key presses in a trial of the given block type. */
  function ScoreKeys(c: Counters, blockType: BlockType, n: nat): Counters
  {
    if n == 0 then c else ScoreKey(ScoreKeys(c, blockType, n - 1), blockType)
  }

  /** The net effect of n key presses: an unambiguous trial adds n to its counter
      and to the total; a rivalry trial adds n to the total but leaves its own
      counter at 1 once any key was pressed; any other block type changes nothing. */
  lemma {:induction false} ScoreKeysEffect(c: Counters, blockType: BlockType, n: nat)
    ensures var r := ScoreKeys(c, blockType, n);
      && (blockType == Unambiguous ==> r == Counters(c.unambiguous + n, c.rivalry, c.total + n))
      && (blockType == Rivalry ==> r == Counters(c.unambiguous, if n == 0 then c.rivalry else 1, c.total + n))
      && (blockType.OtherBlock? ==> r == c)
  {
    if n > 0 {
      ScoreKeysEffect(c, blockType, n - 1);
    }
  }

  /** What the counters satisfy from their reset onwards (all zero satisfies it,
      and the session's GetEvents keeps it): every unambiguous response is also
      counted in the total, and the rivalry counter is 0 or 1 and never exceeds
      the responses that were not unambiguous. */
  ghost predicate CountersConsistent(c: Counters)
  {
    0 <= c.unambiguous <= c.total && 0 <= c.rivalry <= 1 && c.rivalry <= c.total - c.unambiguous
  }

  /** Scoring any number of key presses keeps the counters consistent. */
  lemma {:induction false} ScoreKeysConsistent(c: Counters, blockType: BlockType, n: nat)
    requires CountersConsistent(c)
    ensures CountersConsistent(ScoreKeys(c, blockType, n))
  {
    if n > 0 {
      ScoreKeysConsistent(c, blockType, n - 1);
    }
  }
}
