/** Over-the-air installs: one shared status, written by upload threads, poll threads and handlers. */
module Swupdate {
  import opened Bytes

  datatype UpdateState = Idle | Uploading | Installing | Success | Failure | Done

  /** The error text of a status, by where it came from. */
  datatype Problem =
    | NoProblem | NoIpc | FileError | NoAck | ClosedEarly | InstallFailed | SubprocessFailed | TimedOut
    | Reported(text: string)

  datatype Status = Status(
    state: UpdateState, lastResult: UpdateState, percent: int, step: int, steps: int, name: string, error: Problem)

  /** What GET_STATUS answers. */
  datatype Reply = Reply(
    state: UpdateState, lastResult: UpdateState, percent: int, step: int, steps: int, name: string, error: string)

  function Fresh(initial: UpdateState): Status {
    Status(initial, Idle, 0, 0, 0, "", NoProblem)
  }

  predicate Busy(st: Status) {
    st.state == Uploading || st.state == Installing
  }

  // ---- one job, from its request to its verdict --------------------------------------------

  /** One write of the shared status under its lock. */
  datatype Effect =
    | Observe(percent: int, step: int, steps: int, name: string)
    | MarkInstalling
    | Conclude(ok: bool, error: Problem)

  function Applied(st: Status, e: Effect): Status {
    match e
    case Observe(percent, step, steps, name) =>
      st.(percent := percent, step := step, steps := steps, name := if name == "" then st.name else name)
    case MarkInstalling => if st.state == Uploading then st.(state := Installing) else st
    case Conclude(ok, error) => if ok then st.(state := Success) else st.(state := Failure, error := error)
  }

  function AppliedAll(st: Status, es: seq<Effect>): Status {
    if es == [] then st else Applied(AppliedAll(st, es[..|es| - 1]), es[|es| - 1])
  }

  const SILENCE_LIMIT := 600

  /** Where a job's thread stands. */
  datatype Stage =
    | Requesting(streamed: bool)
    | Copying
    | Subprocess
    | Attaching
    | Acking
    | Watching(sawStart: bool, idle: nat)
    | Asking(i: nat, lastLogged: UpdateState)

  /** What the progress socket brings; `reply` is what GET_STATUS would answer if it were asked then. */
  datatype Watch =
    | Interrupted
    | SelectFailed
    | Silence(reply: Option<Reply>)
    | Closed(reply: Option<Reply>)
    | Progress(code: nat, percent: int, step: int, steps: int, image: string)

  datatype Event =
    | Connected(ok: bool)
    | Copied(ok: bool)
    | Exited(code: int)
    | Attached(ok: bool)
    | Acked(ok: bool)
    | Watched(watch: Watch)
    | Replied(reply: Option<Reply>)

  datatype Reaction = Reaction(effects: seq<Effect>, next: Option<Stage>)

  function Verdict(ok: bool, error: Problem): Reaction {
    Reaction([Conclude(ok, error)], None)
  }

  predicate StartLike(code: nat) {
    code == 1 || code == 2 || code == 5 || code == 7 || code == 8
  }

  /** What a reply to GET_STATUS during a silence decides. */
  function Decided(reply: Option<Reply>): Option<bool> {
    if reply.None? then None
    else
      var s := reply.value;
      if s.state == Success || s.state == Done || (s.state == Idle && s.lastResult != Failure) then Some(true)
      else if s.state == Failure || (s.state == Idle && s.lastResult == Failure) then Some(false)
      else None
  }

  function ReactWatching(sawStart: bool, idle: nat, w: Watch): Reaction {
    match w
    case Interrupted => Reaction([], Some(Watching(sawStart, idle)))
    case SelectFailed => Verdict(false, TimedOut)
    case Silence(reply) =>
      if sawStart && Decided(reply) == Some(true) then Verdict(true, NoProblem)
      else if sawStart && Decided(reply) == Some(false) then Verdict(false, Reported(reply.value.error))
      else if idle + 1 >= SILENCE_LIMIT then Verdict(false, TimedOut)
      else Reaction([], Some(Watching(sawStart, idle + 1)))
    case Closed(reply) =>
      if !sawStart then Verdict(false, ClosedEarly)
      else if reply.Some? && reply.value.lastResult == Failure then Verdict(false, Reported(reply.value.error))
      else Verdict(true, NoProblem)
    case Progress(code, percent, step, steps, image) =>
      var seen := Observe(percent, step, steps, image);
      if code == 3 || code == 6 then Reaction([seen, Conclude(true, NoProblem)], None)
      else if code == 4 then Reaction([seen, Conclude(false, InstallFailed)], None)
      else if code == 0 then Reaction([seen], Some(Watching(sawStart, 0)))
      else Reaction([seen, MarkInstalling], Some(Watching(sawStart || StartLike(code), 0)))
  }

  function AskAgain(effects: seq<Effect>, i: nat, lastLogged: UpdateState): Reaction {
    if i + 1 >= SILENCE_LIMIT then Reaction(effects + [Conclude(false, TimedOut)], None)
    else Reaction(effects, Some(Asking(i + 1, lastLogged)))
  }

  function ReactAsking(i: nat, lastLogged: UpdateState, reply: Option<Reply>): Reaction {
    match reply
    case None => AskAgain([], i, lastLogged)
    case Some(s) =>
      var seen := Observe(s.percent, s.step, s.steps, s.name);
      if s.state == Success || s.state == Done then Reaction([seen, Conclude(true, NoProblem)], None)
      else if s.state == Failure then Reaction([seen, Conclude(false, Reported(s.error))], None)
      else if s.state == Idle then
        if i < 5 && lastLogged == Idle then AskAgain([seen], i, lastLogged)
        else if s.lastResult == Failure then Reaction([seen, Conclude(false, Reported(s.error))], None)
        else Reaction([seen, Conclude(true, NoProblem)], None)
      else if s.state == Installing then AskAgain([seen, MarkInstalling], i, s.state)
      else AskAgain([seen], i, s.state)
  }

  predicate Fits(stage: Stage, e: Event) {
    match stage
    case Requesting(_) => e.Connected?
    case Copying => e.Copied?
    case Subprocess => e.Exited?
    case Attaching => e.Attached?
    case Acking => e.Acked?
    case Watching(_, _) => e.Watched?
    case Asking(_, _) => e.Replied?
  }

  function React(stage: Stage, e: Event): Reaction
    requires Fits(stage, e)
  {
    match stage
    case Requesting(streamed) =>
      if e.ok then Reaction([], Some(if streamed then Attaching else Copying))
      else if streamed then Verdict(false, NoIpc)
      else Reaction([], Some(Subprocess))
    case Copying => if e.ok then Reaction([], Some(Attaching)) else Verdict(false, FileError)
    case Subprocess => if e.code == 0 then Verdict(true, NoProblem) else Verdict(false, SubprocessFailed)
    case Attaching => Reaction([], Some(if e.ok then Acking else Asking(0, Idle)))
    case Acking => if e.ok then Reaction([], Some(Watching(false, 0))) else Verdict(false, NoAck)
    case Watching(sawStart, idle) => ReactWatching(sawStart, idle, e.watch)
    case Asking(i, lastLogged) => ReactAsking(i, lastLogged, e.reply)
  }

  /** A history of events a thread starting at `start` can have met. */
  predicate Possible(start: Stage, h: seq<Event>)
    decreases |h|, 0
  {
    h == [] || (Possible(start, h[..|h| - 1])
                && Follow(start, h[..|h| - 1]).next.Some? && Fits(Follow(start, h[..|h| - 1]).next.value, h[|h| - 1]))
  }

  /** Every effect the thread has had, and where it is after the history. */
  function Follow(start: Stage, h: seq<Event>): Reaction
    requires Possible(start, h)
    decreases |h|, 1
  {
    if h == [] then Reaction([], Some(start))
    else
      var before := Follow(start, h[..|h| - 1]);
      var r := React(before.next.value, h[|h| - 1]);
      Reaction(before.effects + r.effects, r.next)
  }

  ghost predicate OpenEnded(es: seq<Effect>) {
    forall e :: e in es ==> !e.Conclude?
  }

  /** No verdict yet, or exactly one and it is the last thing the thread does. */
  ghost predicate ConcludesOnce(r: Reaction) {
    if r.next.Some? then OpenEnded(r.effects)
    else r.effects != [] && r.effects[|r.effects| - 1].Conclude? && OpenEnded(r.effects[..|r.effects| - 1])
  }

  lemma {:induction false} ReactConcludesOnce(stage: Stage, e: Event)
    requires Fits(stage, e)
    ensures ConcludesOnce(React(stage, e))
  {
  }

  /** Every path through a job ends in exactly one terminal transition, and in nothing after it. */
  lemma {:induction false} JobConcludesOnce(start: Stage, h: seq<Event>)
    requires Possible(start, h)
    ensures ConcludesOnce(Follow(start, h))
  {
    hide React;
    if h != [] {
      var before := Follow(start, h[..|h| - 1]);
      var r := React(before.next.value, h[|h| - 1]);
      JobConcludesOnce(start, h[..|h| - 1]);
      ReactConcludesOnce(before.next.value, h[|h| - 1]);
      if r.next.None? {
        var all := before.effects + r.effects;
        assert all[..|all| - 1] == before.effects + r.effects[..|r.effects| - 1];
      }
    }
  }

  // ---- what a verdict rests on ---------------------------------------------------------------

  /** A message that an install is under way: start, run, progress, download, subprocess. */
  predicate TellsOfStart(e: Event) {
    e.Watched? && e.watch.Progress? && e.watch.code in {1, 2, 5, 7, 8}
  }

  ghost predicate SawStart(h: seq<Event>) {
    exists e :: e in h && TellsOfStart(e)
  }

  /** Consecutive silences at the end of the history; interruptions do not count either way. */
  function Quiet(h: seq<Event>): nat {
    if h == [] || !h[|h| - 1].Watched? then 0
    else match h[|h| - 1].watch
      case Silence(_) => Quiet(h[..|h| - 1]) + 1
      case Interrupted => Quiet(h[..|h| - 1])
      case _ => 0
  }

  function Asked(h: seq<Event>): nat {
    if h == [] then 0 else Asked(h[..|h| - 1]) + if h[|h| - 1].Replied? then 1 else 0
  }

  /** The last state GET_STATUS answered other than Idle; Idle if there was none. */
  function LastLogged(h: seq<Event>): UpdateState {
    if h == [] then Idle
    else
      var e := h[|h| - 1];
      if e.Replied? && e.reply.Some? && e.reply.value.state != Idle then e.reply.value.state
      else LastLogged(h[..|h| - 1])
  }

  lemma {:induction false} SawStartGrows(h: seq<Event>, e: Event)
    ensures SawStart(h + [e]) <==> SawStart(h) || TellsOfStart(e)
  {
    assert forall x :: x in h + [e] <==> x in h || x == e;
    if TellsOfStart(e) {
      assert e in h + [e];
    }
  }

  /** What a stage says of the history that led to it. */
  ghost predicate Remembers(stage: Stage, h: seq<Event>) {
    match stage
    case Watching(saw, idle) => saw == SawStart(h) && idle == Quiet(h) < SILENCE_LIMIT
    case Asking(i, lastLogged) => i == Asked(h) < SILENCE_LIMIT && lastLogged == LastLogged(h) && !SawStart(h)
    case _ => !SawStart(h) && Quiet(h) == Asked(h) == 0 && LastLogged(h) == Idle
  }

  lemma {:induction false} StageStep(stage: Stage, h: seq<Event>, e: Event)
    requires Remembers(stage, h) && Fits(stage, e) && React(stage, e).next.Some?
    ensures Remembers(React(stage, e).next.value, h + [e])
  {
    SawStartGrows(h, e);
    hide SawStart;
    assert (h + [e])[..|h|] == h;
  }

  /** A thread that is watching or asking knows exactly this of its past. */
  lemma {:induction false} StageRemembers(start: Stage, h: seq<Event>)
    requires start.Requesting? && Possible(start, h) && Follow(start, h).next.Some?
    ensures Remembers(Follow(start, h).next.value, h)
  {
    if h != [] {
      var front, e := h[..|h| - 1], h[|h| - 1];
      StageRemembers(start, front);
      hide Remembers, React;
      StageStep(Follow(start, front).next.value, front, e);
      assert h == front + [e];
    }
  }

  predicate SaysDone(s: Reply) {
    s.state == Success || s.state == Done || (s.state == Idle && s.lastResult != Failure)
  }

  predicate SaysFailed(s: Reply) {
    s.state == Failure || (s.state == Idle && s.lastResult == Failure)
  }

  /** All that a verdict may need of the history before its last event. */
  datatype Past = Past(sawStart: bool, quiet: nat, asked: nat, logged: UpdateState)

  ghost function PastOf(h: seq<Event>): Past {
    Past(SawStart(h), Quiet(h), Asked(h), LastLogged(h))
  }

  /** An idle answer counts only after five answers, or after another answer than idle. */
  predicate Counts(past: Past, s: Reply) {
    s.state == Idle ==> past.asked >= 5 || past.logged != Idle
  }

  /** What success rests on. */
  predicate Supports(past: Past, e: Event) {
    match e
    case Watched(Progress(code, _, _, _, _)) => code == 3 || code == 6
    case Watched(Silence(Some(s))) => past.sawStart && SaysDone(s)
    case Watched(Closed(reply)) => past.sawStart && (reply.Some? ==> reply.value.lastResult != Failure)
    case Replied(Some(s)) => SaysDone(s) && Counts(past, s)
    case Exited(code) => code == 0
    case _ => false
  }

  /** When the job is given up for want of an answer: a failed select, or 600 silences or replies on end. */
  predicate GivesUp(past: Past, e: Event) {
    match e
    case Watched(SelectFailed) => true
    case Watched(Silence(reply)) =>
      past.quiet + 1 == 600 && (past.sawStart && reply.Some? ==> !SaysDone(reply.value) && !SaysFailed(reply.value))
    case Replied(None) => past.asked + 1 == 600
    case Replied(Some(s)) => past.asked + 1 == 600 && (s.state == Installing || s.state == Uploading)
    case _ => false
  }

  /** What each failure rests on. */
  predicate Blames(start: Stage, past: Past, e: Event, problem: Problem) {
    match problem
    case NoProblem => false
    case NoIpc => e == Connected(false) && start == Requesting(true)
    case FileError => e == Copied(false)
    case SubprocessFailed => e.Exited? && e.code != 0
    case NoAck => e == Acked(false)
    case ClosedEarly => e.Watched? && e.watch.Closed? && !past.sawStart
    case InstallFailed => e.Watched? && e.watch.Progress? && e.watch.code == 4
    case TimedOut => GivesUp(past, e)
    case Reported(text) =>
      match e
      case Watched(Silence(Some(s))) => past.sawStart && SaysFailed(s) && text == s.error
      case Watched(Closed(Some(s))) => past.sawStart && s.lastResult == Failure && text == s.error
      case Replied(Some(s)) => SaysFailed(s) && Counts(past, s) && text == s.error
      case _ => false
  }

  /** Both told from the history alone. */
  ghost predicate Evidence(h: seq<Event>) {
    h != [] && Supports(PastOf(h[..|h| - 1]), h[|h| - 1])
  }

  ghost predicate Fault(start: Stage, h: seq<Event>, problem: Problem) {
    h != [] && Blames(start, PastOf(h[..|h| - 1]), h[|h| - 1], problem)
  }

  ghost predicate Ends(r: Reaction, verdict: Effect) {
    r.next.None? && r.effects != [] && r.effects[|r.effects| - 1] == verdict
  }

  ghost predicate Earned(start: Stage, h: seq<Event>, r: Reaction) {
    && (Evidence(h) <==> Ends(r, Conclude(true, NoProblem)))
    && (forall problem :: Fault(start, h, problem) <==> Ends(r, Conclude(false, problem)))
  }

  ghost predicate EarnedBy(start: Stage, past: Past, e: Event, r: Reaction, problem: Problem) {
    && (Supports(past, e) <==> Ends(r, Conclude(true, NoProblem)))
    && (Blames(start, past, e, problem) <==> Ends(r, Conclude(false, problem)))
  }

  lemma {:induction false} WatchingEarns(start: Stage, past: Past, w: Watch, problem: Problem)
    requires past.quiet < SILENCE_LIMIT
    ensures EarnedBy(start, past, Watched(w), ReactWatching(past.sawStart, past.quiet, w), problem)
  {
  }

  lemma {:induction false} AskingEarns(start: Stage, past: Past, reply: Option<Reply>, problem: Problem)
    requires past.asked < SILENCE_LIMIT
    ensures EarnedBy(start, past, Replied(reply), ReactAsking(past.asked, past.logged, reply), problem)
  {
  }

  lemma {:induction false} EarlyEarns(start: Stage, past: Past, stage: Stage, e: Event, problem: Problem)
    requires Fits(stage, e) && !stage.Watching? && !stage.Asking? && start.Requesting?
    requires stage.Requesting? ==> stage == start
    ensures EarnedBy(start, past, e, React(stage, e), problem)
  {
  }

  lemma {:induction false} RequestsOnce(start: Stage, h: seq<Event>)
    requires start.Requesting? && Possible(start, h)
    ensures Follow(start, h).next.Some? && Follow(start, h).next.value.Requesting? ==> h == []
  {
  }

  /**
    A job succeeds exactly when its history holds the evidence, and fails with a problem exactly when
    its history holds that fault.
   */
  lemma {:induction false} VerdictIsEarned(start: Stage, h: seq<Event>)
    requires start.Requesting? && Possible(start, h) && h != []
    ensures Earned(start, h, Follow(start, h))
  {
    var front, e := h[..|h| - 1], h[|h| - 1];
    var stage, past := Follow(start, front).next.value, PastOf(front);
    StageRemembers(start, front);
    RequestsOnce(start, front);
    hide EarnedBy, ReactWatching, ReactAsking, Supports, Blames, SawStart, Quiet, Asked, LastLogged;
    forall problem
      ensures EarnedBy(start, past, e, React(stage, e), problem)
    {
      match stage {
        case Watching(_, _) => WatchingEarns(start, past, e.watch, problem);
        case Asking(_, _) => AskingEarns(start, past, e.reply, problem);
        case _ => EarlyEarns(start, past, stage, e, problem);
      }
    }
    hide Earned, React;
    ReactConcludesOnce(stage, e);
    EarnedForAll(start, h, past, e, React(stage, e));
    EarnedLater(start, h, Follow(start, front).effects, React(stage, e));
  }

  lemma {:induction false} EarnedForAll(start: Stage, h: seq<Event>, past: Past, e: Event, r: Reaction)
    requires h != [] && past == PastOf(h[..|h| - 1]) && e == h[|h| - 1]
    requires forall problem :: EarnedBy(start, past, e, r, problem)
    ensures Earned(start, h, r)
  {
    hide Supports, Blames, Ends, PastOf;
    assert EarnedBy(start, past, e, r, NoProblem);
    forall problem
      ensures Fault(start, h, problem) <==> Ends(r, Conclude(false, problem))
    {
      assert EarnedBy(start, past, e, r, problem);
    }
  }

  lemma {:induction false} EarnedLater(start: Stage, h: seq<Event>, before: seq<Effect>, r: Reaction)
    requires Earned(start, h, r) && ConcludesOnce(r)
    ensures Earned(start, h, Reaction(before + r.effects, r.next))
  {
    hide Evidence, Fault;
  }

  /** A message that says the install is over: success, failure or done. */
  predicate Final(e: Event) {
    e.Watched? && e.watch.Progress? && e.watch.code in {3, 4, 6}
  }

  /** Nothing is met after such a message, so no job succeeds that was told of a failure. */
  lemma {:induction false} FinalMessageIsLast(start: Stage, h: seq<Event>, i: nat)
    requires start.Requesting? && Possible(start, h) && i < |h| && Final(h[i])
    ensures i == |h| - 1
    ensures h[i].watch.code == 4 ==> Ends(Follow(start, h), Conclude(false, InstallFailed)) && !Evidence(h)
  {
    if i < |h| - 1 {
      FinalMessageIsLast(start, h[..|h| - 1], i);
      FinalConcludes(start, h[..|h| - 1]);
    } else {
      hide Possible, Follow;
      VerdictIsEarned(start, h);
      assert h[i].watch.code == 4 ==> Fault(start, h, InstallFailed);
    }
  }

  lemma {:induction false} FinalConcludes(start: Stage, h: seq<Event>)
    requires Possible(start, h) && h != [] && Final(h[|h| - 1])
    ensures Follow(start, h).next.None?
  {
  }

  // ---- what the status shows -----------------------------------------------------------------

  /** The figures of the last message or answer, zeros before the first. */
  function LastFigures(h: seq<Event>): (int, int, int) {
    if h == [] then (0, 0, 0)
    else match h[|h| - 1]
      case Watched(Progress(_, percent, step, steps, _)) => (percent, step, steps)
      case Replied(Some(s)) => (s.percent, s.step, s.steps)
      case _ => LastFigures(h[..|h| - 1])
  }

  /** The last name that was not empty. */
  function LastName(h: seq<Event>): string {
    if h == [] then ""
    else match h[|h| - 1]
      case Watched(Progress(_, _, _, _, image)) => if image != "" then image else LastName(h[..|h| - 1])
      case Replied(Some(s)) => if s.name != "" then s.name else LastName(h[..|h| - 1])
      case _ => LastName(h[..|h| - 1])
  }

  /** A message other than idle, or an answer that an install is under way. */
  predicate TellsInstalling(e: Event) {
    match e
    case Watched(Progress(code, _, _, _, _)) => code != 0
    case Replied(Some(s)) => s.state == Installing
    case _ => false
  }

  predicate ToldInstalling(h: seq<Event>) {
    h != [] && (ToldInstalling(h[..|h| - 1]) || TellsInstalling(h[|h| - 1]))
  }

  /** What a job's status shows of its history, if nobody else wrote to it: figures and name. */
  ghost predicate ShowsFigures(st: Status, h: seq<Event>) {
    (st.percent, st.step, st.steps) == LastFigures(h) && st.name == LastName(h) && st.lastResult == Idle
  }

  /** And its state: how far the job is, given whether an install was heard of, or its verdict. */
  ghost predicate ShowsState(st: Status, initial: UpdateState, told: bool, r: Reaction) {
    && (r.next.Some? ==> st.error == NoProblem && st.state == if told then Installing else initial)
    && (r.next.None? && r.effects != [] && r.effects[|r.effects| - 1].Conclude? ==>
          var verdict := r.effects[|r.effects| - 1];
          if verdict.ok then st.state == Success && st.error == NoProblem
          else st.state == Failure && st.error == verdict.error)
  }

  /** The one observation a reaction can make, as its first write. */
  lemma {:induction false} FiguresOf(st: Status, es: seq<Effect>)
    requires |es| <= 3 && forall i :: 0 < i < |es| ==> !es[i].Observe?
    ensures var t, u := AppliedAll(st, es), if es != [] && es[0].Observe? then Applied(st, es[0]) else st;
            t.percent == u.percent && t.step == u.step && t.steps == u.steps && t.name == u.name
            && t.lastResult == u.lastResult
  {
    AppliedFew(st, es);
    hide AppliedAll;
  }

  lemma {:induction false} FiguresOn(st: Status, h: seq<Event>, stage: Stage, e: Event)
    requires ShowsFigures(st, h) && Fits(stage, e)
    ensures ShowsFigures(AppliedAll(st, React(stage, e).effects), h + [e])
  {
    assert (h + [e])[..|h|] == h;
    ObservesFirst(stage, e);
    FiguresOf(st, React(stage, e).effects);
    hide AppliedAll, React, Fits;
  }

  predicate Observes(e: Event, es: seq<Effect>) {
    match e
    case Watched(Progress(_, percent, step, steps, image)) =>
      es != [] && es[0] == Observe(percent, step, steps, image)
    case Replied(Some(s)) => es != [] && es[0] == Observe(s.percent, s.step, s.steps, s.name)
    case _ => es == [] || !es[0].Observe?
  }

  lemma {:induction false} ObservesFirst(stage: Stage, e: Event)
    requires Fits(stage, e)
    ensures var es := React(stage, e).effects;
            Observes(e, es) && |es| <= 3 && forall i :: 0 < i < |es| ==> !es[i].Observe?
  {
  }

  lemma {:induction false} WatchingState(st: Status, initial: UpdateState, told: bool, saw: bool, idle: nat, w: Watch)
    requires initial == Uploading || initial == Installing
    requires st.error == NoProblem && st.state == if told then Installing else initial
    ensures var r := ReactWatching(saw, idle, w);
            ShowsState(AppliedAll(st, r.effects), initial, told || TellsInstalling(Watched(w)), r)
  {
    AppliedFew(st, ReactWatching(saw, idle, w).effects);
    hide AppliedAll, StartLike, Decided;
  }

  lemma {:induction false} AskingState(st: Status, initial: UpdateState, told: bool, i: nat, logged: UpdateState,
                                       reply: Option<Reply>)
    requires initial == Uploading || initial == Installing
    requires st.error == NoProblem && st.state == if told then Installing else initial
    ensures var r := ReactAsking(i, logged, reply);
            ShowsState(AppliedAll(st, r.effects), initial, told || TellsInstalling(Replied(reply)), r)
  {
    AppliedFew(st, ReactAsking(i, logged, reply).effects);
    hide AppliedAll;
  }

  lemma {:induction false} EarlyState(st: Status, initial: UpdateState, told: bool, stage: Stage, e: Event)
    requires Fits(stage, e) && !stage.Watching? && !stage.Asking?
    requires st.error == NoProblem && st.state == if told then Installing else initial
    ensures ShowsState(AppliedAll(st, React(stage, e).effects), initial, told || TellsInstalling(e), React(stage, e))
  {
    AppliedFew(st, React(stage, e).effects);
    hide AppliedAll;
  }

  lemma {:induction false} StateOn(st: Status, initial: UpdateState, told: bool, stage: Stage, e: Event)
    requires initial == Uploading || initial == Installing
    requires st.error == NoProblem && (st.state == if told then Installing else initial) && Fits(stage, e)
    ensures ShowsState(AppliedAll(st, React(stage, e).effects), initial, told || TellsInstalling(e), React(stage, e))
  {
    hide ShowsState, ReactWatching, ReactAsking, AppliedAll, TellsInstalling;
    match stage
    case Watching(saw, idle) => WatchingState(st, initial, told, saw, idle, e.watch);
    case Asking(i, logged) => AskingState(st, initial, told, i, logged, e.reply);
    case _ => EarlyState(st, initial, told, stage, e);
  }

  lemma {:induction false} StateLater(st: Status, initial: UpdateState, told: bool, before: seq<Effect>, r: Reaction)
    requires ShowsState(st, initial, told, r) && ConcludesOnce(r)
    ensures ShowsState(st, initial, told, Reaction(before + r.effects, r.next))
  {
  }

  /**
    At every point of a job the status shows the figures and the name it was last told, and
    `Installing` from the first sign of it; once concluded, the verdict with its problem.
   */
  lemma {:induction false} StatusFollows(start: Stage, initial: UpdateState, h: seq<Event>)
    requires Possible(start, h) && (initial == Uploading || initial == Installing)
    ensures var r := Follow(start, h);
            var st := AppliedAll(Fresh(initial), r.effects);
            ShowsFigures(st, h) && ShowsState(st, initial, ToldInstalling(h), r)
  {
    if h != [] {
      hide AppliedAll, ShowsFigures, ShowsState, React, ToldInstalling;
      var front, e := h[..|h| - 1], h[|h| - 1];
      StatusFollows(start, initial, front);
      var before := Follow(start, front);
      StatusStep(initial, front, before, before.next.value, e);
      assert h == front + [e];
    }
  }

  lemma {:induction false} StatusStep(initial: UpdateState, h: seq<Event>, before: Reaction, stage: Stage, e: Event)
    requires (initial == Uploading || initial == Installing) && before.next == Some(stage) && Fits(stage, e)
    requires var st := AppliedAll(Fresh(initial), before.effects);
             ShowsFigures(st, h) && ShowsState(st, initial, ToldInstalling(h), before)
    ensures var r := React(stage, e);
            var st := AppliedAll(Fresh(initial), before.effects + r.effects);
            && ShowsFigures(st, h + [e])
            && ShowsState(st, initial, ToldInstalling(h + [e]), Reaction(before.effects + r.effects, r.next))
  {
    var r, st := React(stage, e), AppliedAll(Fresh(initial), before.effects);
    hide AppliedAll, React, ShowsFigures, TellsInstalling;
    AppliedJoin(Fresh(initial), before.effects, r.effects);
    ReactConcludesOnce(stage, e);
    FiguresOn(st, h, stage, e);
    assert (h + [e])[..|h|] == h;
    StateOn(st, initial, ToldInstalling(h), stage, e);
    hide ShowsState, ConcludesOnce;
    StateLater(AppliedAll(st, r.effects), initial, ToldInstalling(h + [e]), before.effects, r);
  }

  predicate DoneMessage(e: Event) {
    e.Watched? && e.watch.Progress? && (e.watch.code == 3 || e.watch.code == 6)
  }

  /**
    Of a successful job: a start-like message came before its verdict, or a success or done message was
    its verdict, exactly if the verdict came over the progress socket.
   */
  lemma {:induction false} StartSeenExactlyOnSocket(start: Stage, h: seq<Event>)
    requires start.Requesting? && Possible(start, h) && Evidence(h)
    ensures SawStart(h[..|h| - 1]) || DoneMessage(h[|h| - 1]) <==> h[|h| - 1].Watched?
  {
    StageRemembers(start, h[..|h| - 1]);
  }

  /**
    Without the progress socket that is not so: six idle answers in a row, which the loop asks for
    without a pause, are reported as a successful install that was never seen to start.
   */
  lemma {:induction false} SuccessWithoutStart(idle: Reply)
    requires idle.state == Idle && idle.lastResult == Idle
    ensures var h := [Connected(true), Attached(false)] + seq(6, i => Replied(Some(idle)));
            && Possible(Requesting(true), h) && !SawStart(h)
            && Ends(Follow(Requesting(true), h), Conclude(true, NoProblem))
  {
    var start, r := Requesting(true), Replied(Some(idle));
    var h := [Connected(true), Attached(false)] + seq(6, i => r);
    AskedIdle(idle, 0);
    AskedIdle(idle, 1);
    AskedIdle(idle, 2);
    AskedIdle(idle, 3);
    AskedIdle(idle, 4);
    AskedIdle(idle, 5);
    assert h[..7] + [r] == h;
    assert h[..7] == [Connected(true), Attached(false)] + seq(5, i => r);
  }

  lemma {:induction false} AskedIdle(idle: Reply, n: nat)
    requires n <= 5 && idle.state == Idle
    ensures var h := [Connected(true), Attached(false)] + seq(n, i => Replied(Some(idle)));
            Possible(Requesting(true), h) && Follow(Requesting(true), h).next == Some(Asking(n, Idle))
  {
    var h, e := [Connected(true), Attached(false)] + seq(n, i => Replied(Some(idle))), Replied(Some(idle));
    if n == 0 {
      RanOne(Requesting(true), Connected(true), Fresh(Uploading));
      RanOne(Attaching, Attached(false), Fresh(Uploading));
      FollowJoin(Requesting(true), [Connected(true)], Attaching, [Attached(false)]);
      assert h == [Connected(true)] + [Attached(false)];
    } else {
      AskedIdle(idle, n - 1);
      assert h[..|h| - 1] == [Connected(true), Attached(false)] + seq(n - 1, i => e);
    }
  }

  // ---- any number of requests, threads and handlers -----------------------------------------

  /** An accepted request and its thread: what it has met, what it has written, what it still has to write. */
  datatype Job = Job(
    start: Stage, history: seq<Event>, written: seq<Effect>, pending: seq<Effect>, stage: Option<Stage>)

  datatype System = System(status: Status, jobs: seq<Job>)

  /** One lock region, or one event met by one thread. */
  datatype Action =
    | BeginStream
    | InstallFile(readable: bool)
    | EndStream
    | Happens(job: nat, event: Event)
    | Writes(job: nat)

  const INITIAL := System(Fresh(Idle), [])

  function NewJob(start: Stage): Job {
    Job(start, [], [], [], Some(start))
  }

  function TryBegin(s: System, initial: UpdateState, start: Stage): System {
    if Busy(s.status) then s else System(Fresh(initial), s.jobs + [NewJob(start)])
  }

  function Meets(j: Job, e: Event): Job {
    if j.pending == [] && j.stage.Some? && Fits(j.stage.value, e) then
      var r := React(j.stage.value, e);
      j.(history := j.history + [e], pending := r.effects, stage := r.next)
    else j
  }

  function Next(s: System, a: Action): System {
    match a
    case BeginStream => TryBegin(s, Uploading, Requesting(true))
    case InstallFile(readable) => if readable then TryBegin(s, Installing, Requesting(false)) else s
    case EndStream => s.(status := Applied(s.status, MarkInstalling))
    case Happens(k, e) => if k < |s.jobs| then s.(jobs := s.jobs[k := Meets(s.jobs[k], e)]) else s
    case Writes(k) =>
      if k < |s.jobs| && s.jobs[k].pending != [] then
        var j := s.jobs[k];
        System(Applied(s.status, j.pending[0]),
               s.jobs[k := j.(written := j.written + [j.pending[0]], pending := j.pending[1..])])
      else s
  }

  function Run(actions: seq<Action>): System {
    if actions == [] then INITIAL else Next(Run(actions[..|actions| - 1]), actions[|actions| - 1])
  }

  predicate Finished(j: Job) {
    j.pending == [] && j.stage.None?
  }

  /** A job has written a prefix of what its history calls for, and owes the rest. */
  ghost predicate JobKept(j: Job) {
    && j.start.Requesting? && Possible(j.start, j.history)
    && Follow(j.start, j.history) == Reaction(j.written + j.pending, j.stage)
  }

  /** The state the last job's verdict left behind, for as long as nothing else begins. */
  ghost predicate Settled(st: Status, j: Job) {
    && j.written != [] && j.written[|j.written| - 1].Conclude?
    && st.state == (if j.written[|j.written| - 1].ok then Success else Failure)
    && (st.state == Failure ==> st.error == j.written[|j.written| - 1].error)
  }

  /**
    The busy flag means exactly one job in flight: the latest. Every earlier job has concluded, the
    verdict stands until the next request, and the transient state Done is never stored.
   */
  ghost predicate Exclusive(s: System) {
    && (forall j :: j in s.jobs ==> JobKept(j))
    && (forall i :: 0 <= i < |s.jobs| - 1 ==> Finished(s.jobs[i]))
    && (Busy(s.status) <==> s.jobs != [] && !Finished(s.jobs[|s.jobs| - 1]))
    && (s.jobs != [] && Finished(s.jobs[|s.jobs| - 1]) ==> Settled(s.status, s.jobs[|s.jobs| - 1]))
    && (s.status.state == Idle <==> s.jobs == [])
    && s.status.state != Done
    && (s.status.state != Failure ==> s.status.error == NoProblem)
  }

  lemma {:induction false} MeetsKept(j: Job, e: Event)
    requires JobKept(j)
    ensures JobKept(Meets(j, e))
    ensures Finished(Meets(j, e)) <==> Finished(j)
  {
    hide React;
    if j.pending == [] && j.stage.Some? && Fits(j.stage.value, e) {
      assert (j.history + [e])[..|j.history|] == j.history;
      ReactConcludesOnce(j.stage.value, e);
    }
  }

  lemma {:induction false} WritesKept(j: Job)
    requires JobKept(j) && j.pending != []
    ensures var j' := j.(written := j.written + [j.pending[0]], pending := j.pending[1..]);
            JobKept(j') && (Finished(j') <==> j.pending[0].Conclude?)
  {
    hide Possible, Follow;
    JobConcludesOnce(j.start, j.history);
    var all, rest := j.written + j.pending, j.pending[1..];
    assert j.written + [j.pending[0]] + rest == all;
    if rest == [] {
      assert all[|all| - 1] == j.pending[0];
    } else {
      assert all[..|all| - 1][|j.written|] == j.pending[0] && j.pending[0] in all[..|all| - 1];
    }
    assert j.pending[0] in all;
  }

  /** Only the running job can have anything left to write. */
  lemma {:induction false} OnlyLastWrites(s: System, k: nat)
    requires Exclusive(s) && k < |s.jobs| && !Finished(s.jobs[k])
    ensures k == |s.jobs| - 1 && Busy(s.status)
  {
  }

  lemma {:induction false} ExclusiveWrites(s: System, k: nat)
    requires Exclusive(s) && k < |s.jobs| && s.jobs[k].pending != []
    ensures Exclusive(Next(s, Writes(k)))
  {
    hide JobKept;
    OnlyLastWrites(s, k);
    WritesKept(s.jobs[k]);
  }

  lemma {:induction false} ExclusiveHappens(s: System, k: nat, e: Event)
    requires Exclusive(s) && k < |s.jobs|
    ensures Exclusive(Next(s, Happens(k, e)))
  {
    hide JobKept;
    MeetsKept(s.jobs[k], e);
    if Finished(s.jobs[k]) {
      assert Next(s, Happens(k, e)) == s;
    }
  }

  lemma {:induction false} ExclusiveBegins(s: System, initial: UpdateState, start: Stage)
    requires Exclusive(s) && start.Requesting? && (initial == Uploading || initial == Installing)
    ensures Exclusive(TryBegin(s, initial, start))
  {
    assert JobKept(NewJob(start));
    hide JobKept;
  }

  lemma {:induction false} ExclusiveEnds(s: System)
    requires Exclusive(s)
    ensures Exclusive(Next(s, EndStream))
  {
    hide JobKept;
  }

  lemma {:induction false} ExclusiveKept(s: System, a: Action)
    requires Exclusive(s)
    ensures Exclusive(Next(s, a))
  {
    hide Exclusive;
    match a
    case BeginStream => ExclusiveBegins(s, Uploading, Requesting(true));
    case InstallFile(_) => ExclusiveBegins(s, Installing, Requesting(false));
    case EndStream => ExclusiveEnds(s);
    case Happens(k, e) => if k < |s.jobs| { ExclusiveHappens(s, k, e); }
    case Writes(k) => if k < |s.jobs| && s.jobs[k].pending != [] { ExclusiveWrites(s, k); }
  }

  /** The exclusion holds in every state of every interleaving. */
  lemma {:induction false} AlwaysExclusive(actions: seq<Action>)
    ensures Exclusive(Run(actions))
  {
    assert Exclusive(INITIAL);
    hide Exclusive, Next;
    if actions != [] {
      AlwaysExclusive(actions[..|actions| - 1]);
      ExclusiveKept(Run(actions[..|actions| - 1]), actions[|actions| - 1]);
    }
  }

  function Verdicts(es: seq<Effect>): nat {
    if es == [] then 0 else Verdicts(es[..|es| - 1]) + if es[|es| - 1].Conclude? then 1 else 0
  }

  lemma {:induction false} OpenHasNone(es: seq<Effect>)
    requires OpenEnded(es)
    ensures Verdicts(es) == 0
  {
    if es != [] {
      assert es[|es| - 1] in es && forall e :: e in es[..|es| - 1] ==> e in es;
      OpenHasNone(es[..|es| - 1]);
    }
  }

  /**
    Every accepted request has made exactly one terminal transition, save the one in flight while
    the client is busy, which has made none.
   */
  lemma {:induction false} OneVerdictPerJob(actions: seq<Action>, k: nat)
    requires k < |Run(actions).jobs|
    ensures var s := Run(actions);
            Verdicts(s.jobs[k].written) == if k == |s.jobs| - 1 && Busy(s.status) then 0 else 1
  {
    hide Run;
    AlwaysExclusive(actions);
    var s := Run(actions);
    var j := s.jobs[k];
    assert JobKept(j);
    JobConcludesOnce(j.start, j.history);
    hide JobKept, Follow, Possible;
    if Finished(j) {
      assert j.written + j.pending == j.written;
      OpenHasNone(j.written[..|j.written| - 1]);
    } else {
      var all := j.written + j.pending;
      assert forall e :: e in j.written ==> e in (if j.stage.None? then all[..|all| - 1] else all) by {
        forall i | 0 <= i < |j.written| ensures j.written[i] in (if j.stage.None? then all[..|all| - 1] else all) {
          assert all[i] == j.written[i];
          assert j.stage.None? ==> all[..|all| - 1][i] == j.written[i];
        }
      }
      OpenHasNone(j.written);
    }
  }

  /** A late end of stream, at any time, changes no job and neither starts nor ends anything. */
  lemma {:induction false} LateEndHarmless(actions: seq<Action>)
    ensures var s, t := Run(actions), Next(Run(actions), EndStream);
            && t.jobs == s.jobs && (Busy(t.status) <==> Busy(s.status))
            && (!Busy(s.status) ==> t == s)
  {
  }

  // ---- the client ----------------------------------------------------------------------------

  /** The status after a thread went from `start` through the events it met. */
  ghost predicate Ran(start: Stage, met: seq<Event>, before: Status, after: Status, concluded: bool) {
    && Possible(start, met)
    && after == AppliedAll(before, Follow(start, met).effects)
    && (concluded <==> Follow(start, met).next.None?)
  }

  lemma {:induction false} AppliedJoin(st: Status, a: seq<Effect>, b: seq<Effect>)
    ensures AppliedAll(st, a + b) == AppliedAll(AppliedAll(st, a), b)
  {
    if b == [] {
      assert a + b == a;
    } else {
      assert (a + b)[..|a + b| - 1] == a + b[..|b| - 1];
      AppliedJoin(st, a, b[..|b| - 1]);
    }
  }

  lemma {:induction false} JoinSnoc(a: seq<Event>, b: seq<Event>)
    requires b != []
    ensures (a + b)[..|a + b| - 1] == a + b[..|b| - 1] && (a + b)[|a + b| - 1] == b[|b| - 1]
  {
  }

  lemma {:induction false} EffectsJoin(a: seq<Effect>, b: seq<Effect>, c: seq<Effect>)
    ensures a + (b + c) == a + b + c
  {
  }

  lemma {:induction false} FollowJoin(start: Stage, a: seq<Event>, middle: Stage, b: seq<Event>)
    requires Possible(start, a) && Follow(start, a).next == Some(middle) && Possible(middle, b)
    ensures Possible(start, a + b)
    ensures Follow(start, a + b)
         == Reaction(Follow(start, a).effects + Follow(middle, b).effects, Follow(middle, b).next)
  {
    hide React;
    if b == [] {
      assert a + b == a;
      assert Follow(start, a).effects + [] == Follow(start, a).effects;
    } else {
      var front, e := b[..|b| - 1], b[|b| - 1];
      FollowJoin(start, a, middle, front);
      JoinSnoc(a, b);
      var last := React(Follow(middle, front).next.value, e);
      EffectsJoin(Follow(start, a).effects, Follow(middle, front).effects, last.effects);
    }
  }

  /** One more event and its effects. */
  lemma {:induction false} RanOn(start: Stage, a: seq<Event>, middle: Stage, b: seq<Event>,
                                 st0: Status, st1: Status, st2: Status, concluded: bool)
    requires Ran(start, a, st0, st1, false) && Follow(start, a).next == Some(middle)
    requires Ran(middle, b, st1, st2, concluded)
    ensures Ran(start, a + b, st0, st2, concluded) && Possible(start, a + b)
    ensures Follow(start, a + b).next == Follow(middle, b).next
  {
    hide React;
    FollowJoin(start, a, middle, b);
    AppliedJoin(st0, Follow(start, a).effects, Follow(middle, b).effects);
  }

  lemma {:induction false} RanOne(stage: Stage, e: Event, before: Status)
    requires Fits(stage, e)
    ensures Possible(stage, [e]) && Follow(stage, [e]) == React(stage, e)
    ensures Ran(stage, [e], before, AppliedAll(before, React(stage, e).effects), React(stage, e).next.None?)
  {
    hide React;
    assert [e][..0] == [];
    assert Possible(stage, []) && Follow(stage, []) == Reaction([], Some(stage));
    assert [] + React(stage, e).effects == React(stage, e).effects;
  }

  lemma {:induction false} WatchedOne(sawStart: bool, idle: nat, w: Watch, before: Status)
    ensures var stage, r := Watching(sawStart, idle), ReactWatching(sawStart, idle, w);
            && Possible(stage, [Watched(w)]) && Follow(stage, [Watched(w)]) == r
            && Ran(stage, [Watched(w)], before, AppliedAll(before, r.effects), r.next.None?)
  {
    hide ReactWatching, Ran, AppliedAll;
    RanOne(Watching(sawStart, idle), Watched(w), before);
  }

  lemma {:induction false} AskedOne(i: nat, lastLogged: UpdateState, reply: Option<Reply>, before: Status)
    ensures var stage, r := Asking(i, lastLogged), ReactAsking(i, lastLogged, reply);
            && Possible(stage, [Replied(reply)]) && Follow(stage, [Replied(reply)]) == r
            && Ran(stage, [Replied(reply)], before, AppliedAll(before, r.effects), r.next.None?)
  {
    hide ReactAsking, Ran, AppliedAll;
    RanOne(Asking(i, lastLogged), Replied(reply), before);
  }

  /** The writes of one reaction, one by one: never more than three. */
  lemma {:induction false} AppliedFew(st: Status, es: seq<Effect>)
    ensures |es| == 0 ==> AppliedAll(st, es) == st
    ensures |es| == 1 ==> AppliedAll(st, es) == Applied(st, es[0])
    ensures |es| == 2 ==> AppliedAll(st, es) == Applied(Applied(st, es[0]), es[1])
    ensures |es| == 3 ==> AppliedAll(st, es) == Applied(Applied(Applied(st, es[0]), es[1]), es[2])
  {
    if 0 < |es| <= 3 {
      AppliedFew(st, es[..|es| - 1]);
    }
  }

  function Watches(watch: seq<Watch>): (es: seq<Event>)
    ensures |es| == |watch|
  {
    seq(|watch|, i requires 0 <= i < |watch| => Watched(watch[i]))
  }

  function Answers(replies: seq<Option<Reply>>): (es: seq<Event>)
    ensures |es| == |replies|
  {
    seq(|replies|, i requires 0 <= i < |replies| => Replied(replies[i]))
  }

  /** The events a poll thread is offered, of which it meets as many as it needs. */
  function PollScript(attached: bool, acked: bool, watch: seq<Watch>, replies: seq<Option<Reply>>): seq<Event> {
    [Attached(attached)] + if attached then [Acked(acked)] + Watches(watch) else Answers(replies)
  }

  /** A thread meets its events in order, and stops short of the end only on a verdict. */
  predicate Met(met: seq<Event>, script: seq<Event>, concluded: bool) {
    met <= script && (!concluded ==> met == script)
  }

  lemma {:induction false} MetAfter(first: seq<Event>, met: seq<Event>, script: seq<Event>, concluded: bool)
    requires Met(met, script, concluded)
    ensures Met(first + met, first + script, concluded) && Met(first, first + script, true)
  {
  }

  class SwupdateClient {
    var status: Status

    constructor ()
      ensures status == Fresh(Idle)
    {
      status := Fresh(Idle);
    }

    method IsBusy() returns (busy: bool)
      ensures busy == (status.state == Uploading || status.state == Installing)
    {
      var s := status.state;
      busy := s == Uploading || s == Installing;
    }

    method TryBegin(initial: UpdateState) returns (ok: bool)
      modifies this
      ensures ok == (old(status).state != Uploading && old(status).state != Installing)
      ensures status == if ok then Status(initial, Idle, 0, 0, 0, "", NoProblem) else old(status)
    {
      if status.state == Uploading || status.state == Installing {
        return false;
      }
      status := Fresh(Idle);
      status := status.(state := initial);
      return true;
    }

    method SetState(state: UpdateState)
      modifies this
      ensures status == old(status).(state := state)
    {
      status := status.(state := state);
    }

    method Fail(error: Problem)
      modifies this
      ensures status == Applied(old(status), Conclude(false, error))
      ensures status == old(status).(state := Failure, error := error)
    {
      status := status.(error := error);
      status := status.(state := Failure);
    }

    method Record(percent: int, step: int, steps: int, name: string)
      modifies this
      ensures status == Applied(old(status), Observe(percent, step, steps, name))
    {
      status := status.(percent := percent, step := step, steps := steps);
      if name != "" {
        status := status.(name := name);
      }
    }

    method EndStreamInstall()
      modifies this
      ensures status == Applied(old(status), MarkInstalling)
      ensures status == if old(status).state == Uploading then old(status).(state := Installing) else old(status)
    {
      if status.state == Uploading {
        status := status.(state := Installing);
      }
    }

    /** One message or silence of the progress loop: its writes, and whether the loop goes on. */
    method WatchOnce(sawStart: bool, idle: nat, w: Watch) returns (saw: bool, quiet: nat, concluded: bool)
      requires idle < SILENCE_LIMIT
      modifies this
      ensures var r := ReactWatching(sawStart, idle, w);
              && status == AppliedAll(old(status), r.effects)
              && r.next == if concluded then None else Some(Watching(saw, quiet))
      ensures concluded || quiet < SILENCE_LIMIT
      ensures w.Progress? ==> concluded == (w.code in {3, 4, 6})
      ensures w.Progress? && w.code == 4 ==> status.state == Failure && status.error == InstallFailed
    {
      AppliedFew(status, ReactWatching(sawStart, idle, w).effects);
      hide AppliedAll;
      saw, quiet, concluded := sawStart, idle, true;
      match w
      case Interrupted => concluded := false;
      case SelectFailed => Fail(TimedOut);
      case Silence(reply) =>
        quiet := idle + 1;
        if saw && reply.Some? {
          var s := reply.value;
          if s.state == Success || s.state == Done || (s.state == Idle && s.lastResult != Failure) {
            SetState(Success);
            return;
          }
          if s.state == Failure || (s.state == Idle && s.lastResult == Failure) {
            Fail(Reported(s.error));
            return;
          }
        }
        if quiet >= SILENCE_LIMIT {
          Fail(TimedOut);
        } else {
          concluded := false;
        }
      case Closed(reply) =>
        if !saw {
          Fail(ClosedEarly);
        } else if reply.Some? && reply.value.lastResult == Failure {
          Fail(Reported(reply.value.error));
        } else {
          SetState(Success);
        }
      case Progress(code, percent, step, steps, image) =>
        quiet := 0;
        Record(percent, step, steps, image);
        if code == 3 || code == 6 {
          SetState(Success);
        } else if code == 4 {
          Fail(InstallFailed);
        } else {
          saw := saw || StartLike(code);
          if code != 0 {
            EndStreamInstall();
          }
          concluded := false;
        }
    }

    method AskOnce(i: nat, lastLogged: UpdateState, reply: Option<Reply>) returns (logged: UpdateState, concluded: bool)
      requires i < SILENCE_LIMIT
      modifies this
      ensures var r := ReactAsking(i, lastLogged, reply);
              && status == AppliedAll(old(status), r.effects)
              && r.next == if concluded then None else Some(Asking(i + 1, logged))
      ensures concluded || i + 1 < SILENCE_LIMIT
    {
      AppliedFew(status, ReactAsking(i, lastLogged, reply).effects);
      hide AppliedAll;
      logged, concluded := lastLogged, true;
      if reply.Some? {
        var s := reply.value;
        Record(s.percent, s.step, s.steps, s.name);
        if s.state == Success || s.state == Done {
          SetState(Success);
          return;
        }
        if s.state == Failure {
          Fail(Reported(s.error));
          return;
        }
        if s.state == Idle {
          if !(i < 5 && lastLogged == Idle) {
            if s.lastResult == Failure {
              Fail(Reported(s.error));
            } else {
              SetState(Success);
            }
            return;
          }
        } else {
          if s.state == Installing {
            EndStreamInstall();
          }
          logged := s.state;
        }
      }
      if i + 1 >= SILENCE_LIMIT {
        Fail(TimedOut);
      } else {
        concluded := false;
      }
    }

    method WatchProgress(watch: seq<Watch>) returns (concluded: bool, ghost met: seq<Event>)
      modifies this
      ensures Ran(Watching(false, 0), met, old(status), status, concluded) && Met(met, Watches(watch), concluded)
    {
      hide React, ReactWatching, Ran, Possible, Follow;
      var sawStart, idle: nat, k := false, 0, 0;
      concluded, met := false, [];
      RanNothing(Watching(false, 0), status);
      while !concluded && k < |watch|
        invariant idle < SILENCE_LIMIT || concluded
        invariant k <= |watch| && met == Watches(watch[..k])
        invariant Ran(Watching(false, 0), met, old(status), status, concluded)
        invariant Possible(Watching(false, 0), met)
        invariant !concluded ==> Follow(Watching(false, 0), met).next == Some(Watching(sawStart, idle))
      {
        ghost var stage, e, before := Watching(sawStart, idle), Watched(watch[k]), status;
        sawStart, idle, concluded := WatchOnce(sawStart, idle, watch[k]);
        WatchedOne(stage.sawStart, stage.idle, e.watch, before);
        RanOn(Watching(false, 0), met, stage, [e], old(status), before, status, concluded);
        met, k := met + [e], k + 1;
        assert met == Watches(watch[..k]);
      }
    }

    method PollViaControlSocket(replies: seq<Option<Reply>>) returns (concluded: bool, ghost met: seq<Event>)
      modifies this
      ensures Ran(Asking(0, Idle), met, old(status), status, concluded) && Met(met, Answers(replies), concluded)
    {
      hide React, ReactAsking, Ran, Possible, Follow;
      var lastLogged, i: nat := Idle, 0;
      concluded, met := false, [];
      RanNothing(Asking(0, Idle), status);
      while !concluded && i < |replies|
        invariant i < SILENCE_LIMIT || concluded
        invariant i <= |replies| && met == Answers(replies[..i])
        invariant Ran(Asking(0, Idle), met, old(status), status, concluded)
        invariant Possible(Asking(0, Idle), met)
        invariant !concluded ==> Follow(Asking(0, Idle), met).next == Some(Asking(i, lastLogged))
      {
        ghost var stage, e, before := Asking(i, lastLogged), Replied(replies[i]), status;
        lastLogged, concluded := AskOnce(i, lastLogged, replies[i]);
        AskedOne(stage.i, stage.lastLogged, e.reply, before);
        RanOn(Asking(0, Idle), met, stage, [e], old(status), before, status, concluded);
        met, i := met + [e], i + 1;
        assert met == Answers(replies[..i]);
      }
    }

    /** The poll thread: the progress socket if it can be had, GET_STATUS otherwise. */
    method PollCompletion(attached: bool, acked: bool, watch: seq<Watch>, replies: seq<Option<Reply>>)
        returns (concluded: bool, ghost met: seq<Event>)
      modifies this
      ensures Ran(Attaching, met, old(status), status, concluded)
      ensures Met(met, PollScript(attached, acked, watch, replies), concluded)
    {
      hide Ran, ReactWatching, ReactAsking, Possible, Follow, Applied;
      ghost var first, st := Attached(attached), status;
      AppliedFew(st, [Conclude(false, NoAck)]);
      AppliedFew(st, []);
      RanOne(Attaching, first, st);
      if !attached {
        concluded, met := PollViaControlSocket(replies);
        RanOn(Attaching, [first], Asking(0, Idle), met, st, st, status, concluded);
        met := [first] + met;
        return;
      }
      RanOne(Acking, Acked(acked), st);
      if !acked {
        Fail(NoAck);
        RanOn(Attaching, [first], Acking, [Acked(acked)], st, st, status, true);
        return true, [first] + [Acked(acked)];
      }
      RanOn(Attaching, [first], Acking, [Acked(acked)], st, st, st, false);
      concluded, met := WatchProgress(watch);
      RanOn(Attaching, [first] + [Acked(acked)], Watching(false, 0), met, st, st, status, concluded);
      met := [first] + [Acked(acked)] + met;
    }

    /** The thread of a file install: streams the file over IPC and polls, or runs swupdate itself. */
    method RunInstall(connects: bool, copies: bool, exit: int, attached: bool, acked: bool, watch: seq<Watch>,
                      replies: seq<Option<Reply>>)
        returns (concluded: bool, ghost met: seq<Event>)
      modifies this
      ensures Ran(Requesting(false), met, old(status), status, concluded)
      ensures Met(met, if connects
                       then [Connected(true)] + [Copied(copies)] + PollScript(attached, acked, watch, replies)
                       else [Connected(false)] + [Exited(exit)], concluded)
    {
      assert Met([], PollScript(attached, acked, watch, replies), true);
      assert Met([Connected(false)] + [Exited(exit)], [Connected(false)] + [Exited(exit)], true);
      hide Ran, PollScript, Met;
      ghost var start, first, st := Requesting(false), Connected(connects), status;
      AppliedFew(st, [Conclude(false, FileError)]);
      AppliedFew(st, []);
      AppliedFew(st, [Conclude(false, SubprocessFailed)]);
      AppliedFew(st, [Conclude(true, NoProblem)]);
      RanOne(start, first, st);
      if connects {
        RanOne(Copying, Copied(copies), st);
        ghost var script := PollScript(attached, acked, watch, replies);
        MetAfter([first] + [Copied(copies)], [], script, true);
        if !copies {
          Fail(FileError);
          RanOn(start, [first], Copying, [Copied(copies)], st, st, status, true);
          return true, [first] + [Copied(copies)];
        }
        RanOn(start, [first], Copying, [Copied(copies)], st, st, st, false);
        concluded, met := PollCompletion(attached, acked, watch, replies);
        RanOn(start, [first] + [Copied(copies)], Attaching, met, st, st, status, concluded);
        MetAfter([first] + [Copied(copies)], met, script, concluded);
        return concluded, [first] + [Copied(copies)] + met;
      }
      RanOne(Subprocess, Exited(exit), st);
      if exit == 0 {
        SetState(Success);
      } else {
        Fail(SubprocessFailed);
      }
      RanOn(start, [first], Subprocess, [Exited(exit)], st, st, status, true);
      return true, [first] + [Exited(exit)];
    }

    /** Accepts the upload unless busy; on success the poll thread is started at `Attaching`. */
    method BeginStreamInstall(connects: bool) returns (accepted: bool, usable: bool)
      modifies this
      ensures accepted == !Busy(old(status)) && usable == (accepted && connects)
      ensures !accepted ==> status == old(status)
      ensures accepted ==> status == AppliedAll(Fresh(Uploading), React(Requesting(true), Connected(connects)).effects)
      ensures accepted ==> status == if connects then Status(Uploading, Idle, 0, 0, 0, "", NoProblem)
                                     else Status(Failure, Idle, 0, 0, 0, "", NoIpc)
    {
      accepted := TryBegin(Uploading);
      if !accepted {
        return false, false;
      }
      AppliedFew(status, [Conclude(false, NoIpc)]);
      AppliedFew(status, []);
      if !connects {
        Fail(NoIpc);
        return true, false;
      }
      return true, true;
    }
  }

  lemma {:induction false} RanNothing(start: Stage, st: Status)
    ensures Ran(start, [], st, st, false) && Possible(start, []) && Follow(start, []).next == Some(start)
  {
  }
}
