// The per-operation policies of the session: what an error during a file
// operation leads to (FileOperationLoopQuery, CommandError), which
// overwrite policy applies to a transfer (EffectiveBatchOverwrite) and
// what answer an overwrite confirmation gets (ConfirmFileOverwrite).
//
// The user's reply to a query is an input.  Raising an exception is an
// outcome value.

module Policies {
  import opened Checklist
  import opened Collect

  datatype QueryAnswer =
    | QaYes | QaNo | QaOK | QaCancel | QaAbort | QaRetry | QaIgnore
    | QaAll | QaNoToAll | QaYesToAll | QaHelp | QaSkip | QaNeverAskAgain

  datatype CancelStatus = CsContinue | CsCancel | CsCancelTransfer | CsRemoteAbort

  datatype BatchOverwrite = BoNo | BoAll | BoNone | BoOlder | BoAlternateResume | BoAppend | BoResume

  /** The fields of TFileOperationProgressType the policies read and write. */
  class OperationProgress {
    var cancel: CancelStatus
    var skipToAll: bool
    var batchOverwrite: BatchOverwrite

    constructor()
      ensures cancel == CsContinue && !skipToAll && batchOverwrite == BoNo
    {
      cancel := CsContinue;
      skipToAll := false;
      batchOverwrite := BoNo;
    }
  }

  // ----- FileOperationLoopQuery --------------------------------------------

  /** The buttons offered when a file operation fails. */
  function LoopQueryAnswers(allowSkip: bool, hasSpecialRetry: bool): (a: set<QueryAnswer>)
    ensures QaRetry in a && QaAbort in a
    ensures QaSkip in a <==> allowSkip
    ensures QaAll in a <==> allowSkip
    ensures QaYes in a <==> hasSpecialRetry
  {
    {QaRetry, QaAbort} + (if allowSkip then {QaSkip, QaAll} else {}) + (if hasSpecialRetry then {QaYes} else {})
  }

  datatype LoopQueryOutcome = RetryOperation(specialRetry: bool) | SkipFileRaised | ErrorRaised

  datatype LoopQueryDecision = LoopQueryDecision(asked: bool, setSkipToAll: bool, setCancel: bool, outcome: LoopQueryOutcome)

  /** The decision taken on a failed file operation, given the reply the
      user would give if asked. */
  function LoopQuery(allowSkip: bool, skipToAll: bool, reply: QueryAnswer): (d: LoopQueryDecision)
    ensures d.asked <==> !(allowSkip && skipToAll)
    ensures !d.asked ==> d == LoopQueryDecision(false, false, false, SkipFileRaised)
    ensures d.setSkipToAll <==> d.asked && reply == QaAll
    ensures d.setCancel <==> d.asked && reply == QaAbort
    ensures d.outcome.RetryOperation? <==> d.asked && (reply == QaRetry || reply == QaYes)
    ensures d.outcome == RetryOperation(true) <==> d.asked && reply == QaYes
    ensures !d.outcome.RetryOperation? ==> (d.outcome == SkipFileRaised <==> allowSkip)
  {
    var asked := !(allowSkip && skipToAll);
    var a0 := if asked then reply else QaSkip;
    var setAll := asked && a0 == QaAll;
    var a1 := if setAll then QaSkip else a0;
    var special := asked && a1 == QaYes;
    var a2 := if special then QaRetry else a1;
    if a2 == QaRetry then LoopQueryDecision(asked, setAll, false, RetryOperation(special))
    else LoopQueryDecision(asked, setAll, a2 == QaAbort, if allowSkip then SkipFileRaised else ErrorRaised)
  }

  method FileOperationLoopQuery(progress: OperationProgress, allowSkip: bool, reply: QueryAnswer)
    returns (outcome: LoopQueryOutcome)
    modifies progress
    ensures var d := LoopQuery(allowSkip, old(progress.skipToAll), reply);
            outcome == d.outcome
            && progress.skipToAll == (old(progress.skipToAll) || d.setSkipToAll)
            && progress.cancel == (if d.setCancel then CsCancel else old(progress.cancel))
            && progress.batchOverwrite == old(progress.batchOverwrite)
  {
    var answer: QueryAnswer;
    var special := false;
    if allowSkip && progress.skipToAll {
      answer := QaSkip;
    } else {
      answer := reply;
      if answer == QaAll {
        progress.skipToAll := true;
        answer := QaSkip;
      }
      if answer == QaYes {
        special := true;
        answer := QaRetry;
      }
    }
    if answer != QaRetry {
      if answer == QaAbort {
        progress.cancel := CsCancel;
      }
      if allowSkip {
        return SkipFileRaised;
      } else {
        return ErrorRaised;
      }
    }
    return RetryOperation(special);
  }

  /** The decisions on successive skippable failures of one operation. */
  function LoopQueries(skipToAll: bool, replies: seq<QueryAnswer>): (ds: seq<LoopQueryDecision>)
    ensures |ds| == |replies|
    decreases |replies|
  {
    if replies == [] then []
    else
      var d := LoopQuery(true, skipToAll, replies[0]);
      [d] + LoopQueries(skipToAll || d.setSkipToAll, replies[1..])
  }

  /** Once skip-to-all is set, no later failure asks: each one skips. */
  lemma {:induction false} SkipToAllAnswersAll(replies: seq<QueryAnswer>)
    ensures forall j :: 0 <= j < |replies| ==> LoopQueries(true, replies)[j] == LoopQueryDecision(false, false, false, SkipFileRaised)
    decreases |replies|
  {
    if replies != [] {
      SkipToAllAnswersAll(replies[1..]);
      var ds := LoopQueries(true, replies);
      assert forall j :: 1 <= j < |replies| ==> ds[j] == LoopQueries(true, replies[1..])[j - 1];
    }
  }

  /** The reply "skip all" to the k-th failure silences all later ones. */
  lemma {:induction false} SkipAllIsSticky(skipToAll: bool, replies: seq<QueryAnswer>, k: nat)
    requires k < |replies|
    requires LoopQueries(skipToAll, replies)[k].setSkipToAll
    ensures forall j :: k < j < |replies| ==> LoopQueries(skipToAll, replies)[j] == LoopQueryDecision(false, false, false, SkipFileRaised)
    decreases k
  {
    var d := LoopQuery(true, skipToAll, replies[0]);
    var ds := LoopQueries(skipToAll, replies);
    assert forall j :: 1 <= j < |replies| ==> ds[j] == LoopQueries(skipToAll || d.setSkipToAll, replies[1..])[j - 1];
    if k == 0 {
      SkipToAllAnswersAll(replies[1..]);
    } else {
      SkipAllIsSticky(skipToAll || d.setSkipToAll, replies[1..], k - 1);
    }
  }

  // ----- CommandError ---------------------------------------------------------

  /** The kind of the exception CommandError is given (none counts as other). */
  datatype ErrorKind = FatalException | AbortException | OtherException

  datatype CommandErrorOutcome =
    | RaisedFatal          // FatalError: the session is closed and the error re-raised
    | RaisedAbort          // the silent abort is raised again
    | RaisedCommand        // errors are to be raised: ECommand
    | Reported             // no answers: shown to the user, result 0
    | Answered(answer: QueryAnswer)

  datatype CommandErrorDecision = CommandErrorDecision(asked: bool, setSkipToAll: bool, outcome: CommandErrorOutcome)

  function CommandError(kind: ErrorKind, exceptionOnFail: bool, answers: set<QueryAnswer>,
                        hasProgress: bool, skipToAll: bool, reply: QueryAnswer): (d: CommandErrorDecision)
    ensures kind == FatalException ==> d.outcome == RaisedFatal
    ensures kind == AbortException ==> d.outcome == RaisedAbort
    ensures kind == OtherException && exceptionOnFail ==> d.outcome == RaisedCommand
    ensures kind == OtherException && !exceptionOnFail && answers == {} ==> d.outcome == Reported && !d.asked
    ensures d.asked <==> kind == OtherException && !exceptionOnFail && answers != {}
                         && !(QaSkip in answers && hasProgress && skipToAll)
    ensures kind == OtherException && !exceptionOnFail && answers != {} && !d.asked ==> d.outcome == Answered(QaSkip)
    ensures d.asked ==> d.outcome == Answered(if reply == QaAll then QaSkip else reply)
    ensures d.setSkipToAll <==> d.asked && reply == QaAll && hasProgress
  {
    if kind.FatalException? then CommandErrorDecision(false, false, RaisedFatal)
    else if kind.AbortException? then CommandErrorDecision(false, false, RaisedAbort)
    else if exceptionOnFail then CommandErrorDecision(false, false, RaisedCommand)
    else if answers == {} then CommandErrorDecision(false, false, Reported)
    else
      var canSkip := QaSkip in answers && hasProgress;
      if canSkip && skipToAll then CommandErrorDecision(false, false, Answered(QaSkip))
      else if reply == QaAll then CommandErrorDecision(true, hasProgress, Answered(QaSkip))
      else CommandErrorDecision(true, false, Answered(reply))
  }

  /** The buttons CommandError offers: the caller's, and "skip all" when a
      skip is possible within an operation. */
  function CommandErrorAnswers(answers: set<QueryAnswer>, hasProgress: bool): (a: set<QueryAnswer>)
    ensures answers <= a
    ensures QaAll in a <==> QaAll in answers || (QaSkip in answers && hasProgress)
  {
    answers + (if QaSkip in answers && hasProgress then {QaAll} else {})
  }

  lemma CommandErrorSkipToAllIsSticky(answers: set<QueryAnswer>, reply1: QueryAnswer, reply2: QueryAnswer)
    requires QaSkip in answers
    requires CommandError(OtherException, false, answers, true, false, reply1).setSkipToAll
    ensures CommandError(OtherException, false, answers, true, true, reply2)
         == CommandErrorDecision(false, false, Answered(QaSkip))
  {
  }

  // ----- EffectiveBatchOverwrite ---------------------------------------------

  /** The cp* flags of a transfer that bear on overwriting. */
  datatype CopyFlags = CopyFlags(resume: bool, append: bool, newerOnly: bool, noConfirmation: bool)

  function EffectiveBatchOverwrite(flags: CopyFlags, confirmOverwriting: bool, current: BatchOverwrite, special: bool): (r: BatchOverwrite)
    ensures special && flags.resume ==> r == BoResume
    ensures !(special && flags.resume) && flags.append ==> r == BoAppend
    ensures !(special && flags.resume) && !flags.append && flags.newerOnly ==> r == BoOlder
    ensures (!(special && flags.resume) && !flags.append && !flags.newerOnly
             && (flags.noConfirmation || !confirmOverwriting)) ==> r == BoAll
    ensures (!(special && flags.resume) && !flags.append && !flags.newerOnly
             && !flags.noConfirmation && confirmOverwriting)
            ==> r == (if !special && current in {BoOlder, BoAlternateResume, BoResume} then BoNo else current)
  {
    if special && flags.resume then BoResume
    else if flags.append then BoAppend
    else if flags.newerOnly then BoOlder
    else if flags.noConfirmation || !confirmOverwriting then BoAll
    else if !special && (current == BoOlder || current == BoAlternateResume || current == BoResume) then BoNo
    else current
  }

  /** Without the special case only an explicit newer-only flag gives any
      of the policies that need file details. */
  lemma PlainPolicyNeedsNoDetails(flags: CopyFlags, confirmOverwriting: bool, current: BatchOverwrite)
    ensures var r := EffectiveBatchOverwrite(flags, confirmOverwriting, current, false);
            r != BoResume && r != BoAlternateResume && (r == BoOlder ==> flags.newerOnly)
  {
  }

  /** The special and the plain policy differ only where the special one
      needs file details, and never when a flag or the configuration fixes it. */
  lemma SpecialDiffersOnlyOnDetails(flags: CopyFlags, confirmOverwriting: bool, current: BatchOverwrite)
    ensures var s := EffectiveBatchOverwrite(flags, confirmOverwriting, current, true);
            var p := EffectiveBatchOverwrite(flags, confirmOverwriting, current, false);
            s != p ==> s in {BoResume, BoOlder, BoAlternateResume} && p !in {BoResume, BoAlternateResume}
  {
  }

  /** CheckRemoteFile: the remote file must be looked at unless everything
      is overwritten anyway. */
  function CheckRemoteFile(flags: CopyFlags, confirmOverwriting: bool, current: BatchOverwrite): (b: bool)
    ensures b <==> EffectiveBatchOverwrite(flags, confirmOverwriting, current, true) != BoAll
    ensures flags.resume || flags.append || flags.newerOnly ==> b
  {
    EffectiveBatchOverwrite(flags, confirmOverwriting, current, true) != BoAll
  }

  // ----- ConfirmFileOverwrite -------------------------------------------------

  datatype OverwriteFileParams = OverwriteFileParams(
    sourceSize: int, sourceTimestamp: int, sourcePrecision: ModificationFmt,
    destSize: int, destTimestamp: int, destPrecision: ModificationFmt)

  datatype FileParamsOption = NoFileParams | WithFileParams(params: OverwriteFileParams)

  function CanAlternateResume(fp: FileParamsOption, asciiTransfer: bool): bool
  {
    fp.WithFileParams? && fp.params.destSize < fp.params.sourceSize && !asciiTransfer
  }

  /** Whether a policy can be followed for this file. */
  function Applicable(bo: BatchOverwrite, fp: FileParamsOption, asciiTransfer: bool): bool
  {
    match bo
    case BoOlder => fp.WithFileParams?
    case BoAlternateResume => CanAlternateResume(fp, asciiTransfer)
    case BoResume => CanAlternateResume(fp, asciiTransfer)
    case _ => true
  }

  /** "Newer only": overwrite when the source is later, both times reduced
      to the precision of the two declared earlier in TModificationFmt. */
  function OlderAnswer(fp: FileParamsOption): (a: QueryAnswer)
    ensures a == QaYes || a == QaNo
    ensures a == QaYes <==> (fp.WithFileParams? &&
              var p := fp.params;
              var prec := LessDateTimePrecision(p.sourcePrecision, p.destPrecision);
              ReduceDateTimePrecision(p.sourceTimestamp, prec) - ReduceDateTimePrecision(p.destTimestamp, prec) >= 2)
  {
    if fp.WithFileParams? &&
       var p := fp.params;
       var prec := LessDateTimePrecision(p.sourcePrecision, p.destPrecision);
       CompareFileTime(ReduceDateTimePrecision(p.sourceTimestamp, prec), ReduceDateTimePrecision(p.destTimestamp, prec)) > 0
    then QaYes else QaNo
  }

  /** The answer a policy other than "ask" gives. */
  function PolicyAnswer(bo: BatchOverwrite, fp: FileParamsOption): QueryAnswer
    requires bo != BoNo
  {
    match bo
    case BoAll => QaYes
    case BoNone => QaNo
    case BoOlder => OlderAnswer(fp)
    case BoAlternateResume => QaSkip
    case BoAppend => QaRetry
    case BoResume => QaRetry
  }

  /** The policy a reply to the overwrite question selects, if any. */
  function ChosenPolicy(reply: QueryAnswer): BatchOverwrite
  {
    match reply
    case QaYesToAll => BoAll
    case QaAll => BoOlder
    case QaNoToAll => BoNone
    case _ => BoNo
  }

  datatype OverwriteDecision = OverwriteDecision(
    answer: QueryAnswer, asked: bool, batchOverwrite: BatchOverwrite, confirmOverwriting: bool)

  /** The policy ConfirmFileOverwrite follows: the special one when it can
      be applied to this file, the plain one otherwise. */
  function AppliedPolicy(fp: FileParamsOption, asciiTransfer: bool, flags: CopyFlags,
                         confirmOverwriting: bool, current: BatchOverwrite): BatchOverwrite
  {
    var bo := EffectiveBatchOverwrite(flags, confirmOverwriting, current, true);
    if Applicable(bo, fp, asciiTransfer) then bo
    else EffectiveBatchOverwrite(flags, confirmOverwriting, current, false)
  }

  function ConfirmOverwriteSpec(fp: FileParamsOption, asciiTransfer: bool, flags: CopyFlags,
                                confirmOverwriting: bool, current: BatchOverwrite, reply: QueryAnswer): OverwriteDecision
  {
    var bo := AppliedPolicy(fp, asciiTransfer, flags, confirmOverwriting, current);
    if bo == BoNo then
      var chosen := ChosenPolicy(reply);
      var confirm := if reply == QaNeverAskAgain then false else confirmOverwriting;
      if chosen != BoNo then OverwriteDecision(PolicyAnswer(chosen, fp), true, chosen, confirm)
      else OverwriteDecision(if reply == QaNeverAskAgain then QaYes else reply, true, current, confirm)
    else OverwriteDecision(PolicyAnswer(bo, fp), false, current, confirmOverwriting)
  }

  /** ConfirmFileOverwrite; returns the answer and the new value of the
      ConfirmOverwriting configuration option. */
  method ConfirmFileOverwrite(fp: FileParamsOption, asciiTransfer: bool, flags: CopyFlags,
                              confirmOverwriting: bool, progress: OperationProgress, reply: QueryAnswer)
    returns (answer: QueryAnswer, confirmAfter: bool)
    modifies progress
    ensures var d := ConfirmOverwriteSpec(fp, asciiTransfer, flags, confirmOverwriting, old(progress.batchOverwrite), reply);
            answer == d.answer && confirmAfter == d.confirmOverwriting
            && progress.batchOverwrite == d.batchOverwrite
            && progress.skipToAll == old(progress.skipToAll) && progress.cancel == old(progress.cancel)
  {
    confirmAfter := confirmOverwriting;
    var batchOverwrite := EffectiveBatchOverwrite(flags, confirmOverwriting, progress.batchOverwrite, true);
    if !Applicable(batchOverwrite, fp, asciiTransfer) {
      batchOverwrite := EffectiveBatchOverwrite(flags, confirmOverwriting, progress.batchOverwrite, false);
    }
    answer := QaNo;
    if batchOverwrite == BoNo {
      answer := reply;
      if reply == QaNeverAskAgain {
        confirmAfter := false;
        answer := QaYes;
      } else if reply == QaYesToAll {
        batchOverwrite := BoAll;
      } else if reply == QaAll {
        batchOverwrite := BoOlder;
      } else if reply == QaNoToAll {
        batchOverwrite := BoNone;
      }
      if batchOverwrite != BoNo {
        progress.batchOverwrite := batchOverwrite;
      }
    }
    if batchOverwrite != BoNo {
      answer := PolicyAnswer(batchOverwrite, fp);
    }
  }

  /** The user is asked exactly when no policy is in force for this file. */
  lemma AskedOnlyWithoutPolicy(fp: FileParamsOption, asciiTransfer: bool, flags: CopyFlags,
                               confirmOverwriting: bool, current: BatchOverwrite, reply: QueryAnswer)
    ensures ConfirmOverwriteSpec(fp, asciiTransfer, flags, confirmOverwriting, current, reply).asked
            <==> AppliedPolicy(fp, asciiTransfer, flags, confirmOverwriting, current) == BoNo
  {
  }

  /** "Newer only" never overwrites a destination that is as new as the
      source or newer, however the precisions are reduced. */
  lemma {:induction false} OlderNeverOverwritesNewer(fp: FileParamsOption)
    requires OlderAnswer(fp) == QaYes
    ensures fp.WithFileParams? && fp.params.sourceTimestamp > fp.params.destTimestamp
  {
    var p := fp.params;
    var prec := LessDateTimePrecision(p.sourcePrecision, p.destPrecision);
    if p.sourceTimestamp <= p.destTimestamp {
      ReduceMonotone(p.sourceTimestamp, p.destTimestamp, prec);
      assert false;
    }
  }

  /** With confirmations off and no other flag, every file is overwritten
      without a question. */
  lemma NoConfirmationOverwrites(fp: FileParamsOption, asciiTransfer: bool, flags: CopyFlags,
                                 confirmOverwriting: bool, current: BatchOverwrite, reply: QueryAnswer)
    requires !flags.resume && !flags.append && !flags.newerOnly
    requires flags.noConfirmation || !confirmOverwriting
    ensures ConfirmOverwriteSpec(fp, asciiTransfer, flags, confirmOverwriting, current, reply)
         == OverwriteDecision(QaYes, false, current, confirmOverwriting)
  {
  }

  /** Newer-only without file details falls back to itself (the plain
      policy is newer-only too) and answers No without a question. */
  lemma NewerOnlyWithoutDetails(asciiTransfer: bool, flags: CopyFlags,
                                confirmOverwriting: bool, current: BatchOverwrite, reply: QueryAnswer)
    requires flags.newerOnly && !flags.resume && !flags.append
    ensures EffectiveBatchOverwrite(flags, confirmOverwriting, current, true) == BoOlder
    ensures EffectiveBatchOverwrite(flags, confirmOverwriting, current, false) == BoOlder
    ensures ConfirmOverwriteSpec(NoFileParams, asciiTransfer, flags, confirmOverwriting, current, reply)
         == OverwriteDecision(QaNo, false, current, confirmOverwriting)
  {
  }

  /** "Yes to all" and "No to all" are remembered: the next file of the
      batch gets the same answer without a question. */
  lemma ToAllRepliesAreSticky(fp1: FileParamsOption, fp2: FileParamsOption, asciiTransfer: bool,
                              current: BatchOverwrite, reply1: QueryAnswer, reply2: QueryAnswer)
    requires reply1 == QaYesToAll || reply1 == QaNoToAll
    requires AppliedPolicy(fp1, asciiTransfer, CopyFlags(false, false, false, false), true, current) == BoNo
    ensures var flags := CopyFlags(false, false, false, false);
            var d1 := ConfirmOverwriteSpec(fp1, asciiTransfer, flags, true, current, reply1);
            var d2 := ConfirmOverwriteSpec(fp2, asciiTransfer, flags, d1.confirmOverwriting, d1.batchOverwrite, reply2);
            d1.asked && !d2.asked && d2.answer == d1.answer
            && d1.answer == (if reply1 == QaYesToAll then QaYes else QaNo)
  {
  }

  /** Replying "never ask again" overwrites this file and turns the
      confirmations off, so that the next file is overwritten unasked. */
  lemma NeverAskAgainTurnsConfirmationsOff(fp1: FileParamsOption, fp2: FileParamsOption, asciiTransfer: bool,
                                           current: BatchOverwrite, reply2: QueryAnswer)
    requires AppliedPolicy(fp1, asciiTransfer, CopyFlags(false, false, false, false), true, current) == BoNo
    ensures var flags := CopyFlags(false, false, false, false);
            var d1 := ConfirmOverwriteSpec(fp1, asciiTransfer, flags, true, current, QaNeverAskAgain);
            var d2 := ConfirmOverwriteSpec(fp2, asciiTransfer, flags, d1.confirmOverwriting, d1.batchOverwrite, reply2);
            d1.answer == QaYes && !d1.confirmOverwriting
            && d2 == OverwriteDecision(QaYes, false, d1.batchOverwrite, false)
  {
  }
}
