/** Shutdown of a managed backend launch: its process, its token file and its reader thread. */
module LaunchCleanup {
  import opened Common

  datatype Error = ProcessShutdown | TokenFile | ReaderPanicked | ReaderJoin

  /** The calls that reach outside the launch, with their outcome. */
  datatype Event = CloseProcess(ok: bool) | RemoveFile(ok: bool) | JoinReader(panicked: bool)

  /** `token` is false once the bearer bytes are wiped. */
  datatype Auth = Auth(token: bool, cleaned: bool)

  /** `log` is the history of outside calls. */
  datatype Launch = Launch(process: bool, auth: Option<Auth>, reader: bool, closed: bool, complete: bool,
                           joinFailed: bool, log: seq<Event>)

  /** How the outside world answers one attempt; a missing token file counts as removed. */
  datatype Answers = Answers(processCloses: bool, fileGone: bool, readerFinished: bool, readerPanics: bool)

  /** `cleanup` of the authentication material. */
  function CleanAuth(s: Launch, fileGone: bool): (s': Launch)
  {
    if s.auth.None? then s
    else if s.auth.value.cleaned then s.(auth := Some(Auth(false, true)))
    else s.(auth := Some(Auth(false, fileGone)), log := s.log + [RemoveFile(fileGone)])
  }

  function Close(s: Launch, closes: bool): (s': Launch)
  {
    if s.closed then s
    else if !s.process then s.(closed := true)
    else s.(closed := closes, log := s.log + [CloseProcess(closes)])
  }

  function Join(s: Launch, finished: bool, panics: bool): (r: (Launch, Result<Done, Error>))
  {
    if s.joinFailed then (s, Err(ReaderPanicked))
    else if s.reader && !finished then (s, Err(ReaderJoin))
    else if s.reader && panics then
      (s.(reader := false, joinFailed := true, log := s.log + [JoinReader(true)]), Err(ReaderPanicked))
    else
      (s.(reader := false, complete := true, log := if s.reader then s.log + [JoinReader(false)] else s.log), Ok(Done))
  }

  /** One call of `shutdown`. */
  function Shutdown(s: Launch, a: Answers): (r: (Launch, Result<Done, Error>))
    ensures r.0.process == s.process && r.0.auth.Some? == s.auth.Some?
  {
    if s.complete then (s, Ok(Done))
    else
      var t := Close(s, a.processCloses);
      if !t.closed then (t, Err(ProcessShutdown))
      else
        var u := CleanAuth(t, a.fileGone);
        if u.auth.Some? && !u.auth.value.cleaned then (u, Err(TokenFile))
        else Join(u, a.readerFinished, a.readerPanics)
  }

  /** A last attempt; if it fails with the process still open, the token file is to be preserved. */
  function LastAttempt(s: Launch, a: Answers): (s': Launch)
  {
    var (t, r) := Shutdown(s, a);
    if r.Err? && !t.closed && t.auth.Some? then t.(auth := Some(t.auth.value.(cleaned := true))) else t
  }

  /** The drop of the process owner tries once more to close a process that is still open, when nobody asks any more
      whether it was closed. */
  function DropProcess(s: Launch, closes: bool): (s': Launch)
  {
    if s.process && !s.closed then s.(log := s.log + [CloseProcess(closes)]) else s
  }

  /** The end of the launch: a last attempt, then the drops of the process owner and of the authentication material. */
  function Drop(s: Launch, a: Answers, closes: bool, fileGone: bool): (s': Launch)
  {
    CleanAuth(DropProcess(LastAttempt(s, a), closes), fileGone)
  }

  // The launch in place

  class ManagedBackendLaunchCleanup {
    const process: bool
    var auth: Option<Auth>
    var reader: bool
    var closed: bool
    var complete: bool
    var joinFailed: bool
    var log: seq<Event>

    ghost function Value(): (s: Launch)
      reads this
    {
      Launch(process, auth, reader, closed, complete, joinFailed, log)
    }

    constructor (process: bool, hasAuth: bool, reader: bool)
      ensures Value() == Begin(process, hasAuth, reader)
    {
      this.process, auth, this.reader := process, if hasAuth then Some(Auth(true, false)) else None, reader;
      closed, complete, joinFailed, log := false, false, false, [];
    }

    method CleanUpAuth(fileGone: bool) returns (ok: bool)
      modifies this`auth, this`log
      ensures Value() == CleanAuth(old(Value()), fileGone)
      ensures ok == (auth.Some? ==> auth.value.cleaned)
    {
      if auth.None? {
        return true;
      }
      auth := Some(auth.value.(token := false));
      if auth.value.cleaned {
        return true;
      }
      log := log + [RemoveFile(fileGone)];
      auth := Some(auth.value.(cleaned := fileGone));
      return fileGone;
    }

    method JoinStderr(finished: bool, panics: bool) returns (r: Result<Done, Error>)
      modifies this`reader, this`joinFailed, this`complete, this`log
      ensures (Value(), r) == Join(old(Value()), finished, panics)
    {
      if joinFailed {
        return Err(ReaderPanicked);
      }
      if reader && !finished {
        return Err(ReaderJoin);
      }
      if reader {
        reader := false;
        log := log + [JoinReader(panics)];
        if panics {
          joinFailed := true;
          return Err(ReaderPanicked);
        }
      }
      complete := true;
      return Ok(Done);
    }

    method AttemptShutdown(a: Answers) returns (r: Result<Done, Error>)
      modifies this
      ensures (Value(), r) == Shutdown(old(Value()), a)
    {
      if complete {
        return Ok(Done);
      }
      if !closed {
        if process {
          log := log + [CloseProcess(a.processCloses)];
          if !a.processCloses {
            return Err(ProcessShutdown);
          }
        }
        closed := true;
      }
      var cleaned := CleanUpAuth(a.fileGone);
      if !cleaned {
        return Err(TokenFile);
      }
      r := JoinStderr(a.readerFinished, a.readerPanics);
    }

    method DropLaunch(a: Answers, closes: bool, fileGone: bool)
      modifies this
      ensures Value() == Drop(old(Value()), a, closes, fileGone)
    {
      var r := AttemptShutdown(a);
      if r.Err? && !closed && auth.Some? {
        auth := Some(auth.value.(cleaned := true));
      }
      if process && !closed {
        log := log + [CloseProcess(closes)];
      }
      var _ := CleanUpAuth(fileGone);
    }
  }

  // Runs

  function Begin(process: bool, hasAuth: bool, reader: bool): (s: Launch)
  {
    Launch(process, if hasAuth then Some(Auth(true, false)) else None, reader, false, false, false, [])
  }

  function Attempts(s: Launch, answers: seq<Answers>): (s': Launch)
    decreases |answers|
  {
    if answers == [] then s else Shutdown(Attempts(s, answers[..|answers| - 1]), answers[|answers| - 1]).0
  }

  /** What may follow what in the log: nothing closes the process again after success or after the token file was
      touched, and the reader is joined once. */
  predicate MayFollow(first: Event, second: Event)
  {
    && (second.CloseProcess? ==> first == CloseProcess(false))
    && (second.RemoveFile? ==> first.CloseProcess? || first == RemoveFile(false))
    && (second.JoinReader? ==> !first.JoinReader?)
  }

  ghost predicate Ordered(log: seq<Event>)
  {
    forall j, k :: 0 <= j < k < |log| ==> MayFollow(log[j], log[k])
  }

  /** The state tells which outside calls have been made. */
  predicate Seen(s: Launch, e: Event)
  {
    match e
    case CloseProcess(ok) => s.process && (ok ==> s.closed)
    case RemoveFile(ok) => s.closed && s.auth.Some? && !s.auth.value.token && (ok ==> s.auth.value.cleaned)
    case JoinReader(panicked) =>
      s.closed && (s.auth.None? || s.auth.value.cleaned) && !s.reader && (if panicked then s.joinFailed else s.complete)
  }

  predicate Flags(s: Launch)
  {
    && (s.complete ==> s.closed && !s.reader && !s.joinFailed)
    && (s.complete && s.auth.Some? ==> s.auth.value.cleaned && !s.auth.value.token)
    && (s.joinFailed ==> !s.reader && s.closed && (s.auth.None? || s.auth.value.cleaned))
    && (s.auth.Some? && s.auth.value.cleaned ==> RemoveFile(true) in s.log)
    && (s.closed && s.process ==> CloseProcess(true) in s.log)
  }

  ghost predicate Inv(s: Launch)
  {
    Flags(s) && Ordered(s.log) && forall k :: 0 <= k < |s.log| ==> Seen(s, s.log[k])
  }

  lemma CloseInv(s: Launch, closes: bool)
    requires Inv(s) && !s.complete
    ensures Inv(Close(s, closes))
  {
  }

  lemma CleanInv(s: Launch, fileGone: bool)
    requires Inv(s) && s.closed
    ensures Inv(CleanAuth(s, fileGone))
  {
  }

  lemma JoinInv(s: Launch, finished: bool, panics: bool)
    requires Inv(s) && s.closed && !s.complete && (s.auth.Some? ==> s.auth.value.cleaned && !s.auth.value.token)
    ensures Inv(Join(s, finished, panics).0)
  {
  }

  lemma ShutdownInv(s: Launch, a: Answers)
    requires Inv(s)
    ensures Inv(Shutdown(s, a).0)
  {
    if !s.complete {
      CloseInv(s, a.processCloses);
      var t := Close(s, a.processCloses);
      if t.closed {
        CleanInv(t, a.fileGone);
        var u := CleanAuth(t, a.fileGone);
        if u.auth.Some? ==> u.auth.value.cleaned {
          JoinInv(u, a.readerFinished, a.readerPanics);
        }
      }
    }
  }

  lemma {:induction false} AttemptsInv(s: Launch, answers: seq<Answers>)
    requires Inv(s)
    ensures Inv(Attempts(s, answers))
  {
    if answers != [] {
      AttemptsInv(s, answers[..|answers| - 1]);
      ShutdownInv(Attempts(s, answers[..|answers| - 1]), answers[|answers| - 1]);
    }
  }

  /** The launch after any number of shutdown attempts. */
  function Reach(process: bool, hasAuth: bool, reader: bool, answers: seq<Answers>): (s: Launch)
  {
    Attempts(Begin(process, hasAuth, reader), answers)
  }

  lemma {:induction false} PartsKept(s: Launch, answers: seq<Answers>)
    ensures Attempts(s, answers).process == s.process && Attempts(s, answers).auth.Some? == s.auth.Some?
  {
    if answers != [] {
      PartsKept(s, answers[..|answers| - 1]);
    }
  }

  lemma ClosedFirst(s: Launch, k: nat)
    requires Inv(s) && s.process && s.closed && k < |s.log| && s.log[k].RemoveFile?
    ensures exists j :: 0 <= j < k && s.log[j] == CloseProcess(true)
  {
  }

  /** A launch dropped closed keeps its invariant; one dropped open has only ever tried, in vain, to close its process,
      until its owner tries a last time. */
  lemma DropLog(s: Launch, a: Answers, closes: bool, fileGone: bool)
    requires Inv(s)
    ensures var (t, d) := (Shutdown(s, a).0, Drop(s, a, closes, fileGone));
            && d.closed == t.closed
            && (t.closed ==> Inv(t) && d == CleanAuth(t, fileGone) && Inv(d))
            && (!t.closed ==> d.log == t.log + [CloseProcess(closes)] && OnlyOpen(t.log))
  {
    ShutdownInv(s, a);
    if Shutdown(s, a).0.closed {
      CleanInv(Shutdown(s, a).0, fileGone);
    } else {
      OpenUntouched(Shutdown(s, a).0);
    }
  }

  ghost predicate OnlyOpen(log: seq<Event>)
  {
    forall k :: 0 <= k < |log| ==> log[k] == CloseProcess(false)
  }

  lemma OpenUntouched(s: Launch)
    requires Inv(s) && !s.closed
    ensures OnlyOpen(s.log)
  {
  }

  lemma DropOrdered(s: Launch, a: Answers, closes: bool, fileGone: bool)
    requires Inv(s)
    ensures Ordered(Drop(s, a, closes, fileGone).log)
  {
    DropLog(s, a, closes, fileGone);
  }

  /** Every removal of the token file comes after a proven close of the process. */
  ghost predicate RemovedAfterClose(log: seq<Event>)
  {
    forall k :: 0 <= k < |log| && log[k].RemoveFile? ==> exists j :: 0 <= j < k && log[j] == CloseProcess(true)
  }

  lemma DropClosedFirst(s: Launch, a: Answers, closes: bool, fileGone: bool)
    requires Inv(s) && s.process
    ensures RemovedAfterClose(Drop(s, a, closes, fileGone).log)
  {
    DropLog(s, a, closes, fileGone);
    var d := Drop(s, a, closes, fileGone);
    if d.closed {
      ClosedBefore(d);
    }
  }

  lemma ClosedBefore(s: Launch)
    requires Inv(s) && s.process && s.closed
    ensures RemovedAfterClose(s.log)
  {
    forall k | 0 <= k < |s.log| && s.log[k].RemoveFile?
      ensures exists j :: 0 <= j < k && s.log[j] == CloseProcess(true)
    {
      ClosedFirst(s, k);
    }
  }

  /** Over any shutdown attempts and the final drops: the outside calls come in order, and the token file is touched
      only after the process was proven closed. */
  lemma LifeOrdered(
    process: bool, hasAuth: bool, reader: bool, answers: seq<Answers>, a: Answers, closes: bool, fileGone: bool)
    ensures var log := Drop(Reach(process, hasAuth, reader, answers), a, closes, fileGone).log;
            Ordered(log) && (process ==> RemovedAfterClose(log))
  {
    AttemptsInv(Begin(process, hasAuth, reader), answers);
    PartsKept(Begin(process, hasAuth, reader), answers);
    var s := Reach(process, hasAuth, reader, answers);
    DropOrdered(s, a, closes, fileGone);
    if process {
      DropClosedFirst(s, a, closes, fileGone);
    }
  }

  lemma DropTouches(s: Launch, a: Answers, closes: bool, fileGone: bool)
    requires Inv(s) && Touches(s) && s.auth.Some?
    ensures var (t, d) := (Shutdown(s, a).0, Drop(s, a, closes, fileGone));
            && ((forall k :: 0 <= k < |d.log| ==> !d.log[k].RemoveFile?) <==>
                s.process && CloseProcess(true) !in t.log)
            && d.auth.Some? && !d.auth.value.token
  {
    DropLog(s, a, closes, fileGone);
    var d := Drop(s, a, closes, fileGone);
    if d.closed {
      TouchedStep(s, a);
      assert RemoveFile(true) in d.log || RemoveFile(false) in d.log;
    }
  }

  /** The drop leaves the token file alone if and only if no shutdown attempt proved the process closed, even when its
      owner's own drop then does; the token bytes are wiped either way. */
  lemma FilePreservedIffOpen(
    process: bool, reader: bool, answers: seq<Answers>, a: Answers, closes: bool, fileGone: bool)
    ensures var d := Drop(Reach(process, true, reader, answers), a, closes, fileGone);
            && ((forall k :: 0 <= k < |d.log| ==> !d.log[k].RemoveFile?) <==>
                process && CloseProcess(true) !in Reach(process, true, reader, answers + [a]).log)
            && d.auth.Some? && !d.auth.value.token
  {
    AttemptsInv(Begin(process, true, reader), answers);
    PartsKept(Begin(process, true, reader), answers);
    Touched(process, reader, answers);
    assert (answers + [a])[..|answers|] == answers;
    DropTouches(Reach(process, true, reader, answers), a, closes, fileGone);
  }

  /** A closed launch has tried to remove its token file. */
  predicate Touches(s: Launch)
  {
    s.closed && s.auth.Some? ==> RemoveFile(true) in s.log || RemoveFile(false) in s.log
  }

  lemma TouchedStep(s: Launch, a: Answers)
    requires Touches(s) && Flags(s)
    ensures Touches(Shutdown(s, a).0)
  {
  }

  lemma {:induction false} Touched(process: bool, reader: bool, answers: seq<Answers>)
    ensures Touches(Reach(process, true, reader, answers))
  {
    if answers != [] {
      Touched(process, reader, answers[..|answers| - 1]);
      AttemptsInv(Begin(process, true, reader), answers[..|answers| - 1]);
      TouchedStep(Reach(process, true, reader, answers[..|answers| - 1]), answers[|answers| - 1]);
    }
  }

  /** Completion is permanent, means that every part is done, and is what success reports. */
  lemma {:induction false} CompleteForGood(
    process: bool, hasAuth: bool, reader: bool, answers: seq<Answers>, more: seq<Answers>)
    requires Reach(process, hasAuth, reader, answers).complete
    ensures Attempts(Reach(process, hasAuth, reader, answers), more) == Reach(process, hasAuth, reader, answers)
    ensures var s := Reach(process, hasAuth, reader, answers);
            && (process ==> CloseProcess(true) in s.log)
            && (hasAuth ==> RemoveFile(true) in s.log) && (reader ==> JoinReader(false) in s.log)
  {
    AttemptsInv(Begin(process, hasAuth, reader), answers);
    PartsKept(Begin(process, hasAuth, reader), answers);
    Joined(process, hasAuth, reader, answers);
    if more != [] {
      CompleteForGood(process, hasAuth, reader, answers, more[..|more| - 1]);
    }
  }

  lemma {:induction false} Joined(process: bool, hasAuth: bool, reader: bool, answers: seq<Answers>)
    ensures JoinLogged(Reach(process, hasAuth, reader, answers), reader)
  {
    if answers != [] {
      Joined(process, hasAuth, reader, answers[..|answers| - 1]);
      AttemptsInv(Begin(process, hasAuth, reader), answers[..|answers| - 1]);
      JoinedStep(Reach(process, hasAuth, reader, answers[..|answers| - 1]), answers[|answers| - 1], reader);
    }
  }

  predicate JoinLogged(s: Launch, reader: bool)
  {
    reader && !s.reader ==> JoinReader(s.joinFailed) in s.log
  }

  lemma JoinedJoin(s: Launch, finished: bool, panics: bool, reader: bool)
    requires JoinLogged(s, reader)
    ensures JoinLogged(Join(s, finished, panics).0, reader)
  {
  }

  lemma JoinedStep(s: Launch, a: Answers, reader: bool)
    requires JoinLogged(s, reader)
    ensures JoinLogged(Shutdown(s, a).0, reader)
  {
    var t := Close(s, a.processCloses);
    assert JoinLogged(t, reader);
    var u := CleanAuth(t, a.fileGone);
    assert JoinLogged(u, reader);
    JoinedJoin(u, a.readerFinished, a.readerPanics, reader);
  }

  /** After a panicked reader no attempt ever succeeds. */
  lemma {:induction false} PanicForGood(s: Launch, more: seq<Answers>, a: Answers)
    requires Inv(s) && s.joinFailed
    ensures Attempts(s, more).joinFailed && Shutdown(Attempts(s, more), a).1.Err?
  {
    if more != [] {
      PanicForGood(s, more[..|more| - 1], more[|more| - 1]);
    }
    AttemptsInv(s, more);
  }

  /** An attempt that meets no failure succeeds if and only if no reader panicked before, and success is completion. */
  lemma GoodAttempt(process: bool, hasAuth: bool, reader: bool, answers: seq<Answers>)
    ensures var s := Reach(process, hasAuth, reader, answers);
            var (t, r) := Shutdown(s, Answers(true, true, true, false));
            (r.Ok? <==> !s.joinFailed) && (r.Ok? <==> t.complete)
  {
    AttemptsInv(Begin(process, hasAuth, reader), answers);
  }

  // What an attempt answers and calls, from the calls before it

  /** The parts that the launch began with, and the reader's fate. */
  predicate Began(s: Launch, process: bool, hasAuth: bool, reader: bool)
  {
    s.process == process && s.auth.Some? == hasAuth && (s.reader || s.joinFailed ==> reader) && JoinLogged(s, reader)
  }

  lemma BeganStep(s: Launch, a: Answers, process: bool, hasAuth: bool, reader: bool)
    requires Began(s, process, hasAuth, reader)
    ensures Began(Shutdown(s, a).0, process, hasAuth, reader)
  {
    JoinedStep(s, a, reader);
  }

  lemma {:induction false} BeganKept(process: bool, hasAuth: bool, reader: bool, answers: seq<Answers>)
    ensures Began(Reach(process, hasAuth, reader, answers), process, hasAuth, reader)
  {
    if answers != [] {
      BeganKept(process, hasAuth, reader, answers[..|answers| - 1]);
      BeganStep(Reach(process, hasAuth, reader, answers[..|answers| - 1]), answers[|answers| - 1],
                process, hasAuth, reader);
    }
  }

  /** The outside calls that are still to be made. */
  predicate MustClose(log: seq<Event>, process: bool)
  {
    process && CloseProcess(true) !in log
  }

  predicate MustRemove(log: seq<Event>, hasAuth: bool)
  {
    hasAuth && RemoveFile(true) !in log
  }

  predicate MustJoin(log: seq<Event>, reader: bool)
  {
    reader && JoinReader(true) !in log && JoinReader(false) !in log
  }

  /** The answer of an attempt after this log: the first of close, removal and join that still fails, and a reader that
      has panicked for good. */
  function Due(log: seq<Event>, process: bool, hasAuth: bool, reader: bool, a: Answers): (r: Result<Done, Error>)
  {
    if MustClose(log, process) && !a.processCloses then Err(ProcessShutdown)
    else if MustRemove(log, hasAuth) && !a.fileGone then Err(TokenFile)
    else if JoinReader(true) in log then Err(ReaderPanicked)
    else if MustJoin(log, reader) && !a.readerFinished then Err(ReaderJoin)
    else if MustJoin(log, reader) && a.readerPanics then Err(ReaderPanicked)
    else Ok(Done)
  }

  /** The log after the attempt: each call still to be made, up to the first that fails. */
  function Called(log: seq<Event>, process: bool, hasAuth: bool, reader: bool, a: Answers): (after: seq<Event>)
  {
    var closed := if MustClose(log, process) then log + [CloseProcess(a.processCloses)] else log;
    var removed := if MustRemove(log, hasAuth) then closed + [RemoveFile(a.fileGone)] else closed;
    if MustClose(log, process) && !a.processCloses then closed
    else if MustRemove(log, hasAuth) && !a.fileGone then removed
    else if MustJoin(log, reader) && a.readerFinished then removed + [JoinReader(a.readerPanics)]
    else removed
  }

  /** The fields of the launch say just what its log says. */
  predicate Telling(s: Launch, process: bool, hasAuth: bool, reader: bool)
  {
    && s.process == process && s.auth.Some? == hasAuth
    && (process ==> (s.closed <==> !MustClose(s.log, process)))
    && (hasAuth ==> (s.auth.value.cleaned <==> !MustRemove(s.log, hasAuth)))
    && (s.reader <==> MustJoin(s.log, reader)) && (s.joinFailed <==> JoinReader(true) in s.log)
    && (s.complete ==> s.closed && !s.joinFailed && !s.reader && (hasAuth ==> s.auth.value.cleaned))
  }

  lemma LogTells(s: Launch, process: bool, hasAuth: bool, reader: bool)
    requires Inv(s) && Began(s, process, hasAuth, reader)
    ensures Telling(s, process, hasAuth, reader)
  {
  }

  lemma ShutdownDue(s: Launch, a: Answers, process: bool, hasAuth: bool, reader: bool)
    requires Telling(s, process, hasAuth, reader)
    ensures Shutdown(s, a).1 == Due(s.log, process, hasAuth, reader, a)
  {
  }

  lemma ShutdownCalls(s: Launch, a: Answers, process: bool, hasAuth: bool, reader: bool)
    requires Telling(s, process, hasAuth, reader)
    ensures Shutdown(s, a).0.log == Called(s.log, process, hasAuth, reader, a)
  {
  }

  /** After any attempts, the next one makes exactly the outside calls that have not succeeded yet, in order and up to
      the first failure, and answers accordingly. */
  lemma AttemptAnswer(process: bool, hasAuth: bool, reader: bool, answers: seq<Answers>, a: Answers)
    ensures var s := Reach(process, hasAuth, reader, answers);
            && Shutdown(s, a).1 == Due(s.log, process, hasAuth, reader, a)
            && Reach(process, hasAuth, reader, answers + [a]).log == Called(s.log, process, hasAuth, reader, a)
  {
    AttemptsInv(Begin(process, hasAuth, reader), answers);
    BeganKept(process, hasAuth, reader, answers);
    assert (answers + [a])[..|answers|] == answers;
    LogTells(Reach(process, hasAuth, reader, answers), process, hasAuth, reader);
    ShutdownDue(Reach(process, hasAuth, reader, answers), a, process, hasAuth, reader);
    ShutdownCalls(Reach(process, hasAuth, reader, answers), a, process, hasAuth, reader);
  }
}
