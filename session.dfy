/**
 * The binocular-rivalry session (session.py): building the block/trial
 * schedule once at start-up, and handling the key presses of a running trial
 * (trial.py's get_events, which works on the session's counters and log).
 *
 * The schedule is specified block by block by `Schedule`; the lemmas below
 * derive from it the numbering, labelling and length of the trial list.
 */
module Session {
  import opened Trial

  /** range(n) has max(n, 0) elements. */
  function Count(n: int): nat
  {
    if n < 0 then 0 else n
  }

  /** The start condition: 0 for an even subject, 1 for an odd one. */
  function StartCondition(subjectID: int): int
  {
    if subjectID % 2 == 0 then 0 else 1
  }

  /** The block test as the program writes it: `%` binds tighter than `+`, so
      this is blockID + (startCondition % 2) == 0. */
  predicate IsRivalryBlock(blockID: int, startCondition: int)
  {
    blockID + startCondition % 2 == 0
  }

  /** The start condition is 0 exactly for an even subject (and 1 otherwise),
      and a block is a rivalry block exactly when it is block 0 of an even
      subject: every later block, and every block of an odd subject, is
      unambiguous. */
  lemma RivalryBlockIff(blockID: nat, subjectID: int)
    ensures StartCondition(subjectID) == 0 <==> subjectID % 2 == 0
    ensures StartCondition(subjectID) == 1 <==> subjectID % 2 != 0
    ensures IsRivalryBlock(blockID, StartCondition(subjectID)) <==> blockID == 0 && subjectID % 2 == 0
  {
  }

  /** The unambiguous trials numbered first, first + 1, ..., first + count - 1,
      house on even trial numbers and face on odd ones. */
  function UnambiguousTrials(first: int, count: nat): seq<BRTrial>
  {
    if count == 0 then []
    else
      var nr := first + count - 1;
      UnambiguousTrials(first, count - 1) + [NewTrial(nr, Unambiguous, if nr % 2 == 0 then House else Face)]
  }

  /** The trials one block appends when the running trial number is `first`:
      one rivalry trial, or nrSwitches unambiguous ones. */
  function BlockTrials(blockID: int, startCondition: int, first: int, nrSwitches: int): seq<BRTrial>
  {
    if IsRivalryBlock(blockID, startCondition) then [NewTrial(first, Rivalry, HouseFace)]
    else UnambiguousTrials(first, Count(nrSwitches))
  }

  /** A rivalry block appends exactly one trial, the house_face rivalry trial; an
      unambiguous block appends exactly nrSwitches trials, all unambiguous,
      numbered on from `first`, a house on an even number and a face on an odd one. */
  lemma BlockTrialsShape(blockID: int, startCondition: int, first: int, nrSwitches: int)
    ensures var r := BlockTrials(blockID, startCondition, first, nrSwitches);
      && (IsRivalryBlock(blockID, startCondition) ==> r == [NewTrial(first, Rivalry, HouseFace)])
      && (!IsRivalryBlock(blockID, startCondition) ==>
            && |r| == Count(nrSwitches)
            && forall k :: 0 <= k < |r| ==>
                 r[k] == NewTrial(first + k, Unambiguous, if (first + k) % 2 == 0 then House else Face))
  {
    UnambiguousTrialsAt(first, Count(nrSwitches));
  }

  lemma {:induction false} UnambiguousTrialsAt(first: int, count: nat)
    ensures |UnambiguousTrials(first, count)| == count
    ensures forall k :: 0 <= k < count ==>
      UnambiguousTrials(first, count)[k] == NewTrial(first + k, Unambiguous, if (first + k) % 2 == 0 then House else Face)
  {
    if count > 0 {
      UnambiguousTrialsAt(first, count - 1);
    }
  }

  /** One step of an unambiguous block: appending the next trial to the trials
      so far extends the block's run by one. */
  lemma AppendUnambiguous(before: seq<BRTrial>, i: nat, trials: seq<BRTrial>)
    requires trials == before + UnambiguousTrials(|before|, i)
    ensures |trials| == |before| + i
    ensures trials + [NewTrial(|trials|, Unambiguous, if |trials| % 2 == 0 then House else Face)]
         == before + UnambiguousTrials(|before|, i + 1)
  {
    UnambiguousTrialsAt(|before|, i);
  }

  /** The schedule after one more block. */
  lemma ScheduleStep(startCondition: int, n: int, nrSwitches: int)
    requires n >= 0
    ensures var before := Schedule(startCondition, n, nrSwitches);
      Schedule(startCondition, n + 1, nrSwitches)
      == before + if IsRivalryBlock(n, startCondition) then [NewTrial(|before|, Rivalry, HouseFace)]
                  else UnambiguousTrials(|before|, Count(nrSwitches))
  {
  }

  /** The trial list after the first n blocks, each block numbered on from the
      trials before it. */
  function Schedule(startCondition: int, n: int, nrSwitches: int): seq<BRTrial>
    decreases n
  {
    if n <= 0 then []
    else
      var before := Schedule(startCondition, n - 1, nrSwitches);
      before + BlockTrials(n - 1, startCondition, |before|, nrSwitches)
  }

  /** The number of rivalry blocks among the first n blocks. */
  function RivalryBlocks(startCondition: int, n: int): nat
    decreases n
  {
    if n <= 0 then 0
    else RivalryBlocks(startCondition, n - 1) + (if IsRivalryBlock(n - 1, startCondition) then 1 else 0)
  }

  /** At most one block is a rivalry block: block 0, when the start condition is even. */
  lemma {:induction false} RivalryBlocksCount(startCondition: int, n: int)
    ensures RivalryBlocks(startCondition, n) == if n > 0 && startCondition % 2 == 0 then 1 else 0
    decreases n
  {
    if n > 0 {
      RivalryBlocksCount(startCondition, n - 1);
    }
  }

  /** The length of the trial list: one trial per rivalry block plus nrSwitches
      trials per unambiguous block. */
  lemma {:induction false} ScheduleLength(startCondition: int, n: int, nrSwitches: int)
    ensures |Schedule(startCondition, n, nrSwitches)|
         == RivalryBlocks(startCondition, n) + Count(nrSwitches) * (Count(n) - RivalryBlocks(startCondition, n))
    decreases n
  {
    if n > 0 {
      ScheduleLength(startCondition, n - 1, nrSwitches);
      BlockTrialsShape(n - 1, startCondition, |Schedule(startCondition, n - 1, nrSwitches)|, nrSwitches);
      var r := RivalryBlocks(startCondition, n - 1);
      var w := Count(nrSwitches);
      if !IsRivalryBlock(n - 1, startCondition) {
        MulSucc(w, n - 1 - r);
      }
    }
  }

  lemma MulSucc(w: int, a: int)
    ensures w * (a + 1) == w * a + w
  {
  }

  /** Every trial of the schedule, in closed form: trial k has number and id k;
      it is the rivalry (house_face) trial exactly when k is 0 and the start
      condition is even; every other trial is unambiguous and shows a house on an
      even number and a face on an odd one. */
  lemma {:induction false} ScheduleAt(startCondition: int, n: int, nrSwitches: int, k: int)
    requires 0 <= k < |Schedule(startCondition, n, nrSwitches)|
    ensures var t := Schedule(startCondition, n, nrSwitches)[k];
      && t.trialNr == k && t.id == k
      && (t.blockType == Rivalry <==> k == 0 && startCondition % 2 == 0)
      && (t.blockType == Rivalry ==> t.trialType == HouseFace)
      && (t.blockType != Rivalry ==> t.blockType == Unambiguous && t.trialType == if k % 2 == 0 then House else Face)
      && t.parameters == Parameters(t.blockType, t.trialType)
    decreases n
  {
    var before := Schedule(startCondition, n - 1, nrSwitches);
    BlockTrialsShape(n - 1, startCondition, |before|, nrSwitches);
    if k < |before| {
      ScheduleAt(startCondition, n - 1, nrSwitches, k);
    } else if !IsRivalryBlock(n - 1, startCondition) && k == 0 && startCondition % 2 == 0 {
      // block n - 1 > 0 follows the rivalry block 0, so the list is not empty before it
      ScheduleLength(startCondition, n - 1, nrSwitches);
      RivalryBlocksCount(startCondition, n - 1);
    }
  }

  /** For an even subject the first trial of a non-empty schedule is the rivalry trial. */
  lemma EvenSubjectStartsWithRivalry(subjectID: int, n: int, nrSwitches: int)
    requires subjectID % 2 == 0 && n > 0
    ensures var s := Schedule(StartCondition(subjectID), n, nrSwitches);
      |s| > 0 && s[0].blockType == Rivalry && s[0].trialType == HouseFace
  {
    var sc := StartCondition(subjectID);
    ScheduleLength(sc, n, nrSwitches);
    RivalryBlocksCount(sc, n);
    ScheduleAt(sc, n, nrSwitches, 0);
  }

  /** The session: its settings, its trial list, its response counters and its log. */
  class BinocularRivalrySession {
    const subjectID: int
    const nBlocks: int
    const nrUnambiguousSwitches: int
    const exitKey: string

    var trialList: seq<BRTrial>
    var startCondition: int
    var unambiguousResponses: int
    var rivalryResponses: int
    var totalResponses: int
    var globalLog: seq<LogRow>
    var closed: bool

    /** The three response counters as one value. */
    function Responses(): Counters
      reads this
    {
      Counters(unambiguousResponses, rivalryResponses, totalResponses)
    }

    /** Stores the settings and builds the schedule. */
    constructor (subjectID: int, nBlocks: int, nrUnambiguousSwitches: int, exitKey: string)
      ensures this.subjectID == subjectID && this.nBlocks == nBlocks
      ensures this.nrUnambiguousSwitches == nrUnambiguousSwitches && this.exitKey == exitKey
      ensures globalLog == [] && !closed
      ensures Responses() == Counters(0, 0, 0)
      ensures startCondition == StartCondition(subjectID)
      ensures trialList == Schedule(startCondition, nBlocks, nrUnambiguousSwitches)
    {
      this.subjectID := subjectID;
      this.nBlocks := nBlocks;
      this.nrUnambiguousSwitches := nrUnambiguousSwitches;
      this.exitKey := exitKey;
      globalLog := [];
      closed := false;
      new;
      CreateBlocks();
    }

    /** Resets the counters, picks the start condition and builds the trial list. */
    method CreateBlocks()
      modifies this`trialList, this`startCondition
      modifies this`unambiguousResponses, this`rivalryResponses, this`totalResponses
      ensures Responses() == Counters(0, 0, 0)
      ensures startCondition == StartCondition(subjectID)
      ensures trialList == Schedule(startCondition, nBlocks, nrUnambiguousSwitches)
    {
      trialList := [];
      unambiguousResponses := 0;
      rivalryResponses := 0;
      totalResponses := 0;
      startCondition := if subjectID % 2 == 0 then 0 else 1;

      var trialNr := 0;
      var blockID := 0;
      while blockID < nBlocks
        modifies this`trialList
        invariant 0 <= blockID <= Count(nBlocks)
        invariant trialList == Schedule(startCondition, blockID, nrUnambiguousSwitches)
        invariant trialNr == |trialList|
      {
        ghost var before := trialList;
        ScheduleStep(startCondition, blockID, nrUnambiguousSwitches);
        if blockID + startCondition % 2 == 0 {
          trialList := trialList + [NewTrial(trialNr, Rivalry, HouseFace)];
          trialNr := trialNr + 1;
        } else {
          var i := 0;
          while i < nrUnambiguousSwitches
            modifies this`trialList
            invariant 0 <= i <= Count(nrUnambiguousSwitches)
            invariant trialList == before + UnambiguousTrials(|before|, i)
            invariant trialNr == |trialList|
          {
            AppendUnambiguous(before, i, trialList);
            var trialType := if trialNr % 2 == 0 then House else Face;
            trialList := trialList + [NewTrial(trialNr, Unambiguous, trialType)];
            trialNr := trialNr + 1;
            i := i + 1;
          }
          assert i == Count(nrUnambiguousSwitches);
        }
        blockID := blockID + 1;
      }
      if nBlocks < 0 {
        assert trialList == [] == Schedule(startCondition, nBlocks, nrUnambiguousSwitches);
      }
    }

    /** Handles a batch of key presses during `trial`, in phase `phase`. If the
        exit key is among them the session is closed and nothing is scored or
        logged; otherwise each press, in order, is scored by the trial's block
        type and appended to the log as one row. */
    method GetEvents(trial: BRTrial, phase: int, events: seq<KeyPress>) returns (exited: bool)
      modifies this`unambiguousResponses, this`rivalryResponses, this`totalResponses
      modifies this`globalLog, this`closed
      ensures exited <==> exists i :: 0 <= i < |events| && events[i].key == exitKey
      ensures exited ==> closed && Responses() == old(Responses()) && globalLog == old(globalLog)
      ensures !exited ==> closed == old(closed)
      ensures !exited ==> Responses() == ScoreKeys(old(Responses()), trial.blockType, |events|)
      ensures !exited ==> globalLog == old(globalLog) + RowsFor(trial, phase, events)
      ensures CountersConsistent(old(Responses())) ==> CountersConsistent(Responses())
    {
      exited := false;
      if events != [] {
        if ContainsKey(events, exitKey) {
          closed := true;
          exited := true;
          return;
        }
        var j := 0;
        while j < |events|
          invariant 0 <= j <= |events|
          invariant closed == old(closed)
          invariant Responses() == ScoreKeys(old(Responses()), trial.blockType, j)
          invariant globalLog == old(globalLog) + RowsFor(trial, phase, events[..j])
        {
          var key, t := events[j].key, events[j].time;
          if trial.blockType == Unambiguous {
            unambiguousResponses := unambiguousResponses + 1;
            totalResponses := totalResponses + 1;
          }
          if trial.blockType == Rivalry {
            rivalryResponses := 1;
            totalResponses := totalResponses + 1;
          }
          var eventType := trial.trialType;
          globalLog := globalLog + [LogRow(eventType, trial.trialNr, t, phase, key, 0, trial.parameters)];
          assert events[..j + 1][..j] == events[..j];
          j := j + 1;
        }
        assert events[..j] == events;
        if CountersConsistent(old(Responses())) {
          ScoreKeysConsistent(old(Responses()), trial.blockType, |events|);
        }
      }
    }
  }
}
