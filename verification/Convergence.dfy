/** The interrupt-status and retry policy (Convergence.h).

    A 32-bit status word is represented by the set of the positions of its one bits, so the
    word operations and, or, and-not are intersection, union and difference. The worker reads
    raw words, acknowledges the bits it understands and keeps their union until a verdict is
    reached. A word may be empty (zero), floating (all ones), repeated, or carry only part of
    the evidence. */
module Convergence {
  import opened Command

  type Word = set<int>

  const COMMAND_COMPLETE := 0
  const TRANSFER_COMPLETE := 1
  const BUFFER_READ_READY := 5
  const ERROR_BIT := 15
  const COMMAND_TIMEOUT := 16
  const DATA_TIMEOUT := 20
  const DATA_CRC := 21
  const ADMA := 25

  const EMPTY: Word := {}
  const FLOATING: Word := set b: int | 0 <= b < 32
  const UNDERLYING_ERRORS: Word := set b: int | 16 <= b < 27
  const ANY_ERROR: Word := UNDERLYING_ERRORS + {ERROR_BIT}
  /** Also the status-enable and the signal-enable mask. */
  const DRAIN_MASK: Word := {COMMAND_COMPLETE, TRANSFER_COMPLETE, BUFFER_READ_READY} + ANY_ERROR

  predicate IsSpuriousMeow(word: Word) { word == EMPTY || word == FLOATING }

  predicate IsActionableMeow(word: Word) { !IsSpuriousMeow(word) && word * DRAIN_MASK != EMPTY }

  function BitsToAcknowledge(word: Word): Word {
    if IsSpuriousMeow(word) then EMPTY else word * DRAIN_MASK
  }

  function Accumulate(accumulated: Word, snapshot: Word): Word {
    accumulated + BitsToAcknowledge(snapshot)
  }

  function StormSafeIdleClear(word: Word): Word {
    if IsSpuriousMeow(word) then EMPTY else word * DRAIN_MASK
  }

  datatype PollVerdict =
    | KeepPolling | CommandCompleted | TransferCompleted | BufferReady
    | CommandTimedOut | DataTimedOut | DataCrcFault | AdmaFault | HardError

  function Interpret(word: Word): PollVerdict {
    if IsSpuriousMeow(word) then KeepPolling
    else if COMMAND_TIMEOUT in word then CommandTimedOut
    else if DATA_TIMEOUT in word then DataTimedOut
    else if DATA_CRC in word then DataCrcFault
    else if ADMA in word then AdmaFault
    else if word * ANY_ERROR != EMPTY then HardError
    else if TRANSFER_COMPLETE in word then TransferCompleted
    else if BUFFER_READ_READY in word then BufferReady
    else if COMMAND_COMPLETE in word then CommandCompleted
    else KeepPolling
  }

  /** The overload without a tuning argument. */
  function ClassifyOrdinary(word: Word, dataPresent: bool): PollVerdict {
    if IsSpuriousMeow(word) then KeepPolling
    else
      var effective := word - {BUFFER_READ_READY};
      Interpret(if dataPresent then effective - {COMMAND_COMPLETE} else effective)
  }

  function ClassifyPoll(word: Word, dataPresent: bool, tuning: bool): PollVerdict {
    if !tuning then ClassifyOrdinary(word, dataPresent)
    else if IsSpuriousMeow(word) then KeepPolling
    else
      var verdict := Interpret(word);
      if verdict == BufferReady || IsErrorVerdict(verdict) then verdict else KeepPolling
  }

  predicate IsErrorVerdict(v: PollVerdict) {
    v == CommandTimedOut || v == DataTimedOut || v == DataCrcFault || v == AdmaFault || v == HardError
  }

  // ---- evidence over a whole attempt -------------------------------------------------

  /** What the worker has accumulated after reading `words` in this order. */
  function Evidence(words: seq<Word>): Word {
    if words == [] then EMPTY
    else Accumulate(Evidence(words[..|words| - 1]), words[|words| - 1])
  }

  /** Some word that was neither empty nor floating carried this managed bit. */
  predicate Seen(words: seq<Word>, bit: int) {
    bit in DRAIN_MASK && exists i :: 0 <= i < |words| && !IsSpuriousMeow(words[i]) && bit in words[i]
  }

  predicate SeenError(words: seq<Word>) {
    exists bit :: bit in ANY_ERROR && Seen(words, bit)
  }

  /** The accumulated status is exactly the union of the credible words. How the controller
      splits, repeats, reorders, zeroes or floats them makes no difference. */
  lemma {:induction false} EvidenceIsUnion(words: seq<Word>, bit: int)
    ensures bit in Evidence(words) <==> Seen(words, bit)
  {
    if words != [] {
      var init, last := words[..|words| - 1], words[|words| - 1];
      EvidenceIsUnion(init, bit);
      if Seen(init, bit) {
        var i :| 0 <= i < |init| && !IsSpuriousMeow(init[i]) && bit in init[i];
        assert words[i] == init[i];
      }
      if Seen(words, bit) {
        var i :| 0 <= i < |words| && !IsSpuriousMeow(words[i]) && bit in words[i];
        assert i == |words| - 1 || init[i] == words[i];
      }
    }
  }

  /** The accumulated status is never itself a floating word: only managed bits are kept. */
  lemma {:induction false} EvidenceIsManaged(words: seq<Word>)
    ensures Evidence(words) <= DRAIN_MASK
    ensures Evidence(words) != FLOATING
  {
    if words != [] {
      EvidenceIsManaged(words[..|words| - 1]);
    }
    assert 2 in FLOATING && 2 !in DRAIN_MASK;
  }

  /** Exact meaning of a terminal verdict for an ordinary data command: the transfer is reported
      complete if and only if some credible word carried TransferComplete and none an error.
      CommandComplete and BufferReadReady contribute nothing, alone or together. */
  lemma DataVerdictIsExact(words: seq<Word>)
    ensures var v := ClassifyPoll(Evidence(words), true, false);
      && (v == TransferCompleted <==> Seen(words, TRANSFER_COMPLETE) && !SeenError(words))
      && (IsErrorVerdict(v) <==> SeenError(words))
      && v != CommandCompleted && v != BufferReady
  {
    var e := Evidence(words);
    EvidenceIsManaged(words);
    EvidenceIsUnion(words, TRANSFER_COMPLETE);
    ErrorEvidence(words);
    var effective := e - {BUFFER_READ_READY} - {COMMAND_COMPLETE};
    assert effective != FLOATING by { assert 2 in FLOATING && 2 !in effective; }
    assert effective * ANY_ERROR == e * ANY_ERROR;
    NamedErrorsAreErrors();
  }

  lemma NamedErrorsAreErrors()
    ensures {COMMAND_TIMEOUT, DATA_TIMEOUT, DATA_CRC, ADMA} <= ANY_ERROR
  {
  }

  lemma ErrorEvidence(words: seq<Word>)
    ensures Evidence(words) * ANY_ERROR != EMPTY <==> SeenError(words)
  {
    forall bit ensures bit in Evidence(words) <==> Seen(words, bit) { EvidenceIsUnion(words, bit); }
    if Evidence(words) * ANY_ERROR != EMPTY {
      var bit :| bit in Evidence(words) * ANY_ERROR;
      assert Seen(words, bit);
    }
    if SeenError(words) {
      var bit :| bit in ANY_ERROR && Seen(words, bit);
      assert bit in Evidence(words) * ANY_ERROR;
    }
  }

  /** A non-data command is reported complete exactly when completion evidence of either kind,
      and no error, was seen; CommandComplete is the weaker of the two. */
  lemma PlainVerdictIsExact(words: seq<Word>)
    ensures var v := ClassifyPoll(Evidence(words), false, false);
      && (v == TransferCompleted <==> Seen(words, TRANSFER_COMPLETE) && !SeenError(words))
      && (v == CommandCompleted <==>
            Seen(words, COMMAND_COMPLETE) && !Seen(words, TRANSFER_COMPLETE) && !SeenError(words))
      && (IsErrorVerdict(v) <==> SeenError(words))
      && v != BufferReady
  {
    var e := Evidence(words);
    EvidenceIsManaged(words);
    EvidenceIsUnion(words, TRANSFER_COMPLETE);
    EvidenceIsUnion(words, COMMAND_COMPLETE);
    ErrorEvidence(words);
    var effective := e - {BUFFER_READ_READY};
    assert effective != FLOATING by { assert 2 in FLOATING && 2 !in effective; }
    assert effective * ANY_ERROR == e * ANY_ERROR;
    NamedErrorsAreErrors();
  }

  /** While tuning, BufferReadReady is terminal unless TransferComplete or an error outranks it. */
  lemma TuningVerdictIsExact(words: seq<Word>, dataPresent: bool)
    ensures var v := ClassifyPoll(Evidence(words), dataPresent, true);
      && (v == BufferReady <==>
            Seen(words, BUFFER_READ_READY) && !Seen(words, TRANSFER_COMPLETE) && !SeenError(words))
      && (IsErrorVerdict(v) <==> SeenError(words))
      && v != CommandCompleted && v != TransferCompleted
  {
    var e := Evidence(words);
    EvidenceIsManaged(words);
    EvidenceIsUnion(words, TRANSFER_COMPLETE);
    EvidenceIsUnion(words, BUFFER_READ_READY);
    ErrorEvidence(words);
    NamedErrorsAreErrors();
  }

  /** An error that names its cause. */
  predicate SeenNamed(words: seq<Word>) {
    Seen(words, COMMAND_TIMEOUT) || Seen(words, DATA_TIMEOUT) || Seen(words, DATA_CRC) || Seen(words, ADMA)
  }

  /** Which error verdict it is: the first cause seen in this order, whatever else was seen, and a hard
      error if there was an error without any of these causes. */
  lemma FaultVerdictIsExact(words: seq<Word>, dataPresent: bool, tuning: bool)
    ensures var v := ClassifyPoll(Evidence(words), dataPresent, tuning);
      && (v == CommandTimedOut <==> Seen(words, COMMAND_TIMEOUT))
      && (v == DataTimedOut <==> Seen(words, DATA_TIMEOUT) && !Seen(words, COMMAND_TIMEOUT))
      && (v == DataCrcFault <==>
            Seen(words, DATA_CRC) && !Seen(words, COMMAND_TIMEOUT) && !Seen(words, DATA_TIMEOUT))
      && (v == AdmaFault <==>
            && Seen(words, ADMA)
            && !Seen(words, COMMAND_TIMEOUT) && !Seen(words, DATA_TIMEOUT) && !Seen(words, DATA_CRC))
      && (v == HardError <==> SeenError(words) && !SeenNamed(words))
  {
    hide Evidence, Seen, SeenError;
    var e := Evidence(words);
    EvidenceIsManaged(words);
    EvidenceIsUnion(words, COMMAND_TIMEOUT);
    EvidenceIsUnion(words, DATA_TIMEOUT);
    EvidenceIsUnion(words, DATA_CRC);
    EvidenceIsUnion(words, ADMA);
    ErrorEvidence(words);
    NamedErrorsAreErrors();
    FaultOf(e, dataPresent, tuning);
  }

  /** The same about a single word that is not floating. */
  lemma FaultOf(e: Word, dataPresent: bool, tuning: bool)
    requires e <= DRAIN_MASK && e != FLOATING
    ensures var v := ClassifyPoll(e, dataPresent, tuning);
      && (v == CommandTimedOut <==> COMMAND_TIMEOUT in e)
      && (v == DataTimedOut <==> DATA_TIMEOUT in e && COMMAND_TIMEOUT !in e)
      && (v == DataCrcFault <==> DATA_CRC in e && COMMAND_TIMEOUT !in e && DATA_TIMEOUT !in e)
      && (v == AdmaFault <==> ADMA in e && COMMAND_TIMEOUT !in e && DATA_TIMEOUT !in e && DATA_CRC !in e)
      && (v == HardError <==>
            e * ANY_ERROR != EMPTY && COMMAND_TIMEOUT !in e && DATA_TIMEOUT !in e && DATA_CRC !in e && ADMA !in e)
  {
    var effective := e - {BUFFER_READ_READY};
    var plain := effective - {COMMAND_COMPLETE};
    assert 2 in FLOATING && 2 !in effective && 2 !in plain;
    assert effective * ANY_ERROR == e * ANY_ERROR && plain * ANY_ERROR == e * ANY_ERROR;
  }

  /** Once an error has been seen no later word can turn the verdict back into success. */
  lemma ErrorsOutrankLaterCompletion(before: seq<Word>, after: seq<Word>, dataPresent: bool, tuning: bool)
    requires IsErrorVerdict(ClassifyPoll(Evidence(before), dataPresent, tuning))
    ensures IsErrorVerdict(ClassifyPoll(Evidence(before + after), dataPresent, tuning))
  {
    var words := before + after;
    DataVerdictIsExact(before); PlainVerdictIsExact(before); TuningVerdictIsExact(before, dataPresent);
    DataVerdictIsExact(words); PlainVerdictIsExact(words); TuningVerdictIsExact(words, dataPresent);
    var bit :| bit in ANY_ERROR && Seen(before, bit);
    var i :| 0 <= i < |before| && !IsSpuriousMeow(before[i]) && bit in before[i];
    assert words[i] == before[i];
    assert Seen(words, bit);
  }

  /** The interrupt handler wakes the worker for exactly those words from which the worker, busy
      or idle, clears something, so an asserted line is always lowered by the wake it causes. */
  lemma ActionableMeowIsAcknowledged(word: Word)
    ensures IsActionableMeow(word) <==> BitsToAcknowledge(word) != EMPTY
    ensures IsActionableMeow(word) <==> StormSafeIdleClear(word) != EMPTY
    ensures !IsActionableMeow(word - StormSafeIdleClear(word))
  {
    if !IsSpuriousMeow(word) {
      assert (word - StormSafeIdleClear(word)) * DRAIN_MASK == EMPTY;
    }
  }

  // ---- retry policy ------------------------------------------------------------------

  datatype AttemptResult =
    | Ok | SpuriousOcr | Busy | CommandTimeout | DataTimeout | DataCrc | AdmaError | Error

  datatype RetryAction = Succeed | Retry | RetryResetLines | ResetAndReidentify | Fail

  function DecideRetry(outcome: AttemptResult, attempt: nat, maxAttempts: nat,
                       constraints: Constraints, cardPresent: bool): RetryAction
  {
    var haveBudget := attempt + 1 < maxAttempts;
    match outcome
    case Ok => Succeed
    case SpuriousOcr => if haveBudget then Retry else Fail
    case Busy => if haveBudget then RetryResetLines else Fail
    case CommandTimeout | DataTimeout | DataCrc | AdmaError =>
      if !cardPresent || !haveBudget || !constraints.replaySafe then Fail
      else if constraints.needsBusResetOnError then ResetAndReidentify
      else RetryResetLines
    case Error => Fail
  }
}
