/**
 * `DOMJudgeSubmitter.Submit`: sends a solution to a DOMjudge contest
 * through its REST API (version 4) and waits for the judgement.
 *
 * The HTTP replies are inputs: one for the problem list, one for the
 * upload, and a finite sequence for the judgement polls. Waiting between
 * polls does nothing here, and when the replies run out before a verdict
 * arrives the outcome says that judging is still pending. The result also
 * lists the requests sent, in order.
 */
module DomjudgeSubmit {
  import opened Optional

  /** The arguments of `domjudge_config(...)` in the project file. */
  datatype Config = Config(url: string, contestId: int, username: string, password: string)

  /** What the submitter reads from a solution. */
  datatype Solution = Solution(problemId: string, codePrefix: string, source: string, isCorrect: bool)

  /** An entry of the contest's problem list: its label and its id. */
  datatype ProblemEntry = ProblemEntry(entryLabel: string, entryId: string)

  datatype ProblemsReply = ProblemsReply(status: int, problems: seq<ProblemEntry>)

  datatype SubmissionReply = SubmissionReply(status: int, submissionId: string)

  /**
   * A reply to a judgement poll: the status and the `judgement_type_id` of
   * each judgement listed, `""` where it is null.
   */
  datatype JudgementsReply = JudgementsReply(status: int, verdicts: seq<string>)

  datatype Request =
    | GetProblems(url: string)
    | PostSubmission(url: string, problem: string, language: string, code: string)
    | GetJudgements(url: string, submission: string)

  datatype Failure =
    | ConfigMissing
    | ProblemsFailed
    | ProblemMissing
    | SubmissionFailed
    | JudgementsFailed

  /** An exception the submitter does not catch, which ends the run without a report. */
  datatype Uncaught = KeyError

  /**
   * How a run ends: a failure reported before `yield False`, an uncaught
   * exception, a verdict, or polling that ran out of replies.
   */
  datatype Outcome =
    | Failed(failure: Failure)
    | Raised(error: Uncaught)
    | Judged(verdict: string, note: string, submissionId: string)
    | StillPending(submissionId: string)

  /** The decimal digits of `n`, with no leading zero. */
  function Digits(n: nat): (s: string)
    ensures |s| >= 1 && forall i :: 0 <= i < |s| ==> '0' <= s[i] <= '9'
    ensures s[0] == '0' <==> n == 0
  {
    if n < 10 then [(n + '0' as int) as char] else Digits(n / 10) + Digits(n % 10)
  }

  /** The number a string of decimal digits denotes. */
  function DigitsValue(s: string): nat
    requires forall i :: 0 <= i < |s| ==> '0' <= s[i] <= '9'
  {
    if s == [] then 0 else DigitsValue(s[..|s| - 1]) * 10 + (s[|s| - 1] as int - '0' as int)
  }

  /** The digits written for `n` denote `n`. */
  lemma {:induction false} DigitsDenote(n: nat)
    ensures DigitsValue(Digits(n)) == n
  {
    if n >= 10 {
      var s := Digits(n);
      DigitsDenote(n / 10);
      assert s[..|s| - 1] == Digits(n / 10);
      assert s[|s| - 1] as int - '0' as int == n % 10;
    }
  }

  /** Python's `'%d' % n`. */
  function DecimalText(n: int): string
  {
    if n < 0 then "-" + Digits(-n) else Digits(n)
  }

  function ApiBase(c: Config): string
  {
    c.url + "api/v4/"
  }

  function ProblemsUrl(c: Config): string
  {
    ApiBase(c) + "contests/" + DecimalText(c.contestId) + "/problems"
  }

  function SubmissionsUrl(c: Config): string
  {
    ApiBase(c) + "contests/" + DecimalText(c.contestId) + "/submissions"
  }

  function JudgementsUrl(c: Config): string
  {
    ApiBase(c) + "contests/" + DecimalText(c.contestId) + "/judgements"
  }

  /** The DOMjudge language of each code type the submitter knows. */
  const LanguageMap: map<string, string> :=
    map["c" := "c", "cxx" := "cpp", "java" := "java", "kotlin" := "kotlin", "script" := "python3"]

  /**
   * The language of a code type: C++ is "cpp", scripts are taken to be
   * Python 3, C, Java and Kotlin keep their names, and any other code type
   * has none.
   */
  function LanguageOf(prefix: string): (r: Option<string>)
    ensures r.Some? <==> prefix in {"c", "cxx", "java", "kotlin", "script"}
    ensures prefix == "cxx" ==> r == Some("cpp")
    ensures prefix == "script" ==> r == Some("python3")
    ensures r.Some? && prefix != "cxx" && prefix != "script" ==> r.value == prefix
  {
    if prefix in LanguageMap then Some(LanguageMap[prefix]) else None
  }

  /** The entries of the problem list whose label is `id`, in order. */
  function Matching(problems: seq<ProblemEntry>, id: string): (r: seq<ProblemEntry>)
    ensures |r| <= |problems|
    ensures forall e :: e in r ==> e in problems && e.entryLabel == id
  {
    if problems == [] then []
    else (if problems[0].entryLabel == id then [problems[0]] else []) + Matching(problems[1..], id)
  }

  /** The id of the contest problem labelled `id`, when exactly one entry has that label. */
  function ResolveProblem(problems: seq<ProblemEntry>, id: string): Option<string>
  {
    var matches := Matching(problems, id);
    if |matches| != 1 then None else Some(matches[0].entryId)
  }

  /** Entry `i` is the one and only entry labelled `id`. */
  ghost predicate UniqueMatch(problems: seq<ProblemEntry>, id: string, i: int)
  {
    && 0 <= i < |problems|
    && problems[i].entryLabel == id
    && forall j :: 0 <= j < |problems| && problems[j].entryLabel == id ==> j == i
  }

  /** An entry that does not match can be dropped from the front of the list. */
  lemma UniqueMatchShift(problems: seq<ProblemEntry>, id: string, i: int)
    requires |problems| > 0 && problems[0].entryLabel != id
    ensures UniqueMatch(problems, id, i) <==> i >= 1 && UniqueMatch(problems[1..], id, i - 1)
  {
    var t := problems[1..];
    if i >= 1 && UniqueMatch(t, id, i - 1) {
      forall j | 0 <= j < |problems| && problems[j].entryLabel == id ensures j == i {
        assert t[j - 1] == problems[j];
      }
    }
    if UniqueMatch(problems, id, i) {
      forall j | 0 <= j < |t| && t[j].entryLabel == id ensures j == i - 1 {
        assert problems[j + 1] == t[j];
      }
    }
  }

  /** The filter finds nothing iff no entry matches, and exactly one entry iff one entry alone matches. */
  lemma {:induction false} MatchingCount(problems: seq<ProblemEntry>, id: string)
    ensures |Matching(problems, id)| == 0 <==> forall j :: 0 <= j < |problems| ==> problems[j].entryLabel != id
    ensures |Matching(problems, id)| == 1 <==> exists i :: UniqueMatch(problems, id, i)
    ensures forall i :: UniqueMatch(problems, id, i) ==> Matching(problems, id) == [problems[i]]
  {
    if problems != [] {
      var t := problems[1..];
      MatchingCount(t, id);
      assert forall j :: 0 <= j < |t| ==> t[j] == problems[j + 1];
      if problems[0].entryLabel == id {
        if forall j :: 0 <= j < |t| ==> t[j].entryLabel != id {
          assert UniqueMatch(problems, id, 0);
        }
        forall i | UniqueMatch(problems, id, i) ensures i == 0 && Matching(problems, id) == [problems[i]] {
          forall j | 0 <= j < |t| ensures t[j].entryLabel != id {
            assert problems[j + 1] == t[j];
          }
        }
      } else {
        forall i ensures UniqueMatch(problems, id, i) <==> i >= 1 && UniqueMatch(t, id, i - 1) {
          UniqueMatchShift(problems, id, i);
        }
        if exists i :: UniqueMatch(t, id, i) {
          var i :| UniqueMatch(t, id, i);
          assert UniqueMatch(problems, id, i + 1);
        }
      }
    }
  }

  /**
   * The problem is resolved iff exactly one listed entry carries the local
   * problem id as its label, and then to that entry's id.
   */
  lemma ResolveProblemExactlyOne(problems: seq<ProblemEntry>, id: string)
    ensures ResolveProblem(problems, id).Some? <==> exists i :: UniqueMatch(problems, id, i)
    ensures forall i :: UniqueMatch(problems, id, i) ==> ResolveProblem(problems, id) == Some(problems[i].entryId)
  {
    MatchingCount(problems, id);
  }

  /** The result of polling for a judgement. */
  datatype PollResult =
    | Decided(verdict: string, polls: nat)
    | Broken(polls: nat)
    | Crashed(polls: nat)
    | Pending

  /** A reply that asks for another poll: judging has not started, or has no verdict yet. */
  predicate Waiting(r: JudgementsReply)
  {
    r.status == 200 && (r.verdicts == [] || r.verdicts[0] == "")
  }

  /**
   * Polling from the `k`-th reply on: a reply that is not 200 is a failure,
   * the first verdict that is not empty ends it, and anything else asks
   * again. Running out of replies leaves the judgement pending.
   */
  function PollFrom(replies: seq<JudgementsReply>, k: nat): (r: PollResult)
    requires k <= |replies|
    ensures !r.Crashed?
    ensures r.Decided? ==> k < r.polls <= |replies| && r.verdict != ""
    ensures r.Broken? ==> k < r.polls <= |replies|
    decreases |replies| - k
  {
    if k == |replies| then Pending
    else if replies[k].status != 200 then Broken(k + 1)
    else if replies[k].verdicts != [] && replies[k].verdicts[0] != "" then Decided(replies[k].verdicts[0], k + 1)
    else PollFrom(replies, k + 1)
  }

  function Poll(replies: seq<JudgementsReply>): PollResult
  {
    PollFrom(replies, 0)
  }

  /**
   * Polling as the source writes it: the verdict is read from the first
   * listed judgement even when the list is empty, which raises.
   */
  function PollAsWrittenFrom(replies: seq<JudgementsReply>, k: nat): PollResult
    requires k <= |replies|
    decreases |replies| - k
  {
    if k == |replies| then Pending
    else if replies[k].status != 200 then Broken(k + 1)
    else if replies[k].verdicts == [] then Crashed(k + 1)
    else if replies[k].verdicts[0] != "" then Decided(replies[k].verdicts[0], k + 1)
    else PollAsWrittenFrom(replies, k + 1)
  }

  /**
   * A submission still waiting for a judgehost has no judgement yet: the
   * poll as written raises on it, where the corrected poll asks again and
   * reads the verdict that follows.
   */
  lemma PollAsWrittenCrashesBeforeJudging()
    ensures PollAsWrittenFrom([JudgementsReply(200, []), JudgementsReply(200, ["AC"])], 0) == Crashed(1)
    ensures Poll([JudgementsReply(200, []), JudgementsReply(200, ["AC"])]) == Decided("AC", 2)
  {
  }

  /** Every reply before position `n` asks for another poll. */
  ghost predicate WaitingUpTo(replies: seq<JudgementsReply>, n: int)
  {
    forall j :: 0 <= j < n && j < |replies| ==> Waiting(replies[j])
  }

  /**
   * Polling decides on verdict `v` after `n` polls iff the first `n - 1`
   * replies ask again and the `n`-th carries `v`, not empty.
   */
  lemma {:induction false} PollFromDecided(replies: seq<JudgementsReply>, k: nat, v: string, n: nat)
    requires k <= |replies| && WaitingUpTo(replies, k)
    ensures PollFrom(replies, k) == Decided(v, n) <==>
      && k < n <= |replies|
      && WaitingUpTo(replies, n - 1)
      && replies[n - 1].status == 200 && replies[n - 1].verdicts != [] && replies[n - 1].verdicts[0] == v
      && v != ""
    decreases |replies| - k
  {
    if k < |replies| && Waiting(replies[k]) {
      PollFromDecided(replies, k + 1, v, n);
    }
  }

  /** Polling fails after `n` polls iff the first `n - 1` replies ask again and the `n`-th is not 200. */
  lemma {:induction false} PollFromBroken(replies: seq<JudgementsReply>, k: nat, n: nat)
    requires k <= |replies| && WaitingUpTo(replies, k)
    ensures PollFrom(replies, k) == Broken(n) <==>
      k < n <= |replies| && WaitingUpTo(replies, n - 1) && replies[n - 1].status != 200
    decreases |replies| - k
  {
    if k < |replies| && Waiting(replies[k]) {
      PollFromBroken(replies, k + 1, n);
    }
  }

  /** Polling stays pending iff every reply asks again. */
  lemma {:induction false} PollFromPending(replies: seq<JudgementsReply>, k: nat)
    requires k <= |replies| && WaitingUpTo(replies, k)
    ensures PollFrom(replies, k) == Pending <==> WaitingUpTo(replies, |replies|)
    decreases |replies| - k
  {
    if k < |replies| && Waiting(replies[k]) {
      PollFromPending(replies, k + 1);
    }
  }

  /** The three outcomes of polling, each characterised by the replies. */
  lemma PollOutcomes(replies: seq<JudgementsReply>, v: string, n: nat)
    ensures Poll(replies) == Decided(v, n) <==>
      && 0 < n <= |replies|
      && WaitingUpTo(replies, n - 1)
      && replies[n - 1].status == 200 && replies[n - 1].verdicts != [] && replies[n - 1].verdicts[0] == v
      && v != ""
    ensures Poll(replies) == Broken(n) <==>
      0 < n <= |replies| && WaitingUpTo(replies, n - 1) && replies[n - 1].status != 200
    ensures Poll(replies) == Pending <==> WaitingUpTo(replies, |replies|)
  {
    PollFromDecided(replies, 0, v, n);
    PollFromBroken(replies, 0, n);
    PollFromPending(replies, 0);
  }

  /** Once polling has decided or failed, replies that would come later change nothing. */
  lemma {:induction false} PollFromIgnoresLaterReplies(replies: seq<JudgementsReply>, more: seq<JudgementsReply>, k: nat)
    requires k <= |replies|
    requires PollFrom(replies, k) != Pending
    ensures PollFrom(replies + more, k) == PollFrom(replies, k)
    decreases |replies| - k
  {
    assert (replies + more)[k] == replies[k];
    if Waiting(replies[k]) {
      PollFromIgnoresLaterReplies(replies, more, k + 1);
    }
  }

  /** The note printed after the verdict: empty for a correct solution, "(fake solution)" otherwise. */
  function Note(isCorrect: bool): (s: string)
    ensures s == "" <==> isCorrect
  {
    if isCorrect then "" else "(fake solution)"
  }

  /** The line printed for a judged submission: `'{0} {1} (s{2})'`. */
  function ReportLine(verdict: string, note: string, submissionId: string): string
  {
    verdict + " " + note + " (s" + submissionId + ")"
  }

  /** The report starts with the verdict as the judge gave it, whatever the note. */
  lemma ReportStartsWithVerdict(verdict: string, isCorrect: bool, submissionId: string)
    ensures ReportLine(verdict, Note(isCorrect), submissionId)[..|verdict|] == verdict
    ensures ReportLine(verdict, Note(isCorrect), submissionId)[|verdict|] == ' '
    ensures ReportLine(verdict, Note(isCorrect), submissionId)[|verdict| + 1..|verdict| + 1 + |Note(isCorrect)|] == Note(isCorrect)
  {
    var line := ReportLine(verdict, Note(isCorrect), submissionId);
    assert line == verdict + (" " + Note(isCorrect) + " (s" + submissionId + ")");
  }

  /** `n` polls for the judgements of submission `sid`. */
  function Polls(c: Config, sid: string, n: nat): (r: seq<Request>)
    ensures |r| == n && forall i :: 0 <= i < n ==> r[i] == GetJudgements(JudgementsUrl(c), sid)
  {
    seq(n, _ => GetJudgements(JudgementsUrl(c), sid))
  }

  /**
   * Submits `solution`. Without a configuration nothing is sent. Then the
   * problem list is fetched; a failed fetch or a label that does not pick
   * exactly one problem ends the run with a reported failure, and a code
   * type without a language raises `KeyError`, both before the upload. A
   * failed upload ends it too. Otherwise the
   * judgements are polled until the first verdict, a failed poll, or the
   * end of the replies; the verdict is reported as the judge gave it,
   * with the note saying whether the solution was meant to be correct.
   */
  method Submit(config: Option<Config>, solution: Solution, problemsReply: ProblemsReply,
                submissionReply: SubmissionReply, judgementReplies: seq<JudgementsReply>)
    returns (outcome: Outcome, requests: seq<Request>)
    ensures config.None? ==> outcome == Failed(ConfigMissing) && requests == []
    ensures config.Some? ==> |requests| >= 1 && requests[0] == GetProblems(ProblemsUrl(config.value))
    ensures config.Some? && problemsReply.status != 200 ==>
      outcome == Failed(ProblemsFailed) && |requests| == 1
    ensures config.Some? && problemsReply.status == 200 && ResolveProblem(problemsReply.problems, solution.problemId).None? ==>
      outcome == Failed(ProblemMissing) && |requests| == 1
    ensures (config.Some? && problemsReply.status == 200 && ResolveProblem(problemsReply.problems, solution.problemId).Some?
             && LanguageOf(solution.codePrefix).None?) ==>
      outcome == Raised(KeyError) && |requests| == 1
    ensures (config.Some? && problemsReply.status == 200 && ResolveProblem(problemsReply.problems, solution.problemId).Some?
             && LanguageOf(solution.codePrefix).Some?) ==>
      && |requests| >= 2
      && requests[1] == PostSubmission(SubmissionsUrl(config.value),
                                       ResolveProblem(problemsReply.problems, solution.problemId).value,
                                       LanguageOf(solution.codePrefix).value, solution.source)
      && (submissionReply.status != 200 ==> outcome == Failed(SubmissionFailed) && |requests| == 2)
      && (submissionReply.status == 200 ==>
            && requests[2..] == Polls(config.value, submissionReply.submissionId, |requests| - 2)
            && match Poll(judgementReplies)
               case Decided(v, n) =>
                 outcome == Judged(v, Note(solution.isCorrect), submissionReply.submissionId) && |requests| == 2 + n
               case Broken(n) => outcome == Failed(JudgementsFailed) && |requests| == 2 + n
               case Crashed(_) => false
               case Pending =>
                 outcome == StillPending(submissionReply.submissionId) && |requests| == 2 + |judgementReplies|)
  {
    if config.None? {
      return Failed(ConfigMissing), [];
    }
    var c := config.value;

    requests := [GetProblems(ProblemsUrl(c))];
    if problemsReply.status != 200 {
      return Failed(ProblemsFailed), requests;
    }
    var problemId := ResolveProblem(problemsReply.problems, solution.problemId);
    if problemId.None? {
      return Failed(ProblemMissing), requests;
    }
    var language := LanguageOf(solution.codePrefix);
    if language.None? {
      return Raised(KeyError), requests;
    }

    requests := requests + [PostSubmission(SubmissionsUrl(c), problemId.value, language.value, solution.source)];
    if submissionReply.status != 200 {
      return Failed(SubmissionFailed), requests;
    }
    var sid := submissionReply.submissionId;

    var sent := requests;
    var k := 0;
    var verdict := "";
    while k < |judgementReplies|
      invariant 0 <= k <= |judgementReplies|
      invariant PollFrom(judgementReplies, k) == Poll(judgementReplies)
      invariant requests == sent + Polls(c, sid, k)
      decreases |judgementReplies| - k
    {
      requests := requests + [GetJudgements(JudgementsUrl(c), sid)];
      var reply := judgementReplies[k];
      if reply.status != 200 {
        return Failed(JudgementsFailed), requests;
      }
      if reply.verdicts != [] && reply.verdicts[0] != "" {
        verdict := reply.verdicts[0];
        break;
      }
      k := k + 1;
    }

    if verdict == "" {
      return StillPending(sid), requests;
    }
    outcome := Judged(verdict, Note(solution.isCorrect), sid);
  }
}
