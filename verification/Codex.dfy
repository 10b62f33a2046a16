/** The Codex adapter: one session threaded through the turns of a scenario. */
module Codex {
  import opened Prelude
  import opened Json
  import opened ErrorTypes
  import opened TurnOutput
  import Flags

  const DENIED: set<string> :=
    {"--dangerously-bypass-approvals-and-sandbox", "--sandbox=danger-full-access", "-s=danger-full-access"}

  // ----- the session over a history of calls -----

  /** A call on the adapter; a fetch carries the thread id that its output announced last. */
  datatype Step = Setup | Execute | Fetch(thread: Option<string>) | Teardown

  predicate Resets(s: Step) { s.Setup? || s.Teardown? }

  function SessionAfter(history: seq<Step>): Option<string> {
    if history == [] then None
    else
      var before, s := SessionAfter(history[..|history| - 1]), history[|history| - 1];
      match s
      case Setup => None
      case Teardown => None
      case Execute => before
      case Fetch(thread) => if before.Some? then before else thread
  }

  lemma SessionNext(history: seq<Step>, thread: Option<string>)
    ensures SessionAfter(history + [Fetch(thread)]) ==
      if SessionAfter(history).Some? then SessionAfter(history) else thread
  {
    assert (history + [Fetch(thread)])[..|history|] == history;
  }

  /** Step `i` announced `id`, and neither a reset since nor an announcement before it in the same scenario. */
  ghost predicate FirstAnnounced(history: seq<Step>, i: nat, id: string) {
    && i < |history| && history[i] == Fetch(Some(id))
    && (forall j :: i < j < |history| ==> !Resets(history[j]))
    && (forall j :: 0 <= j < i && history[j].Fetch? && history[j].thread.Some? ==>
      exists k :: j < k < i && Resets(history[k]))
  }

  ghost predicate NoneAnnounced(history: seq<Step>) {
    forall j :: 0 <= j < |history| && history[j].Fetch? && history[j].thread.Some? ==>
      exists k :: j < k < |history| && Resets(history[k])
  }

  lemma {:induction false} SessionIsFirst(history: seq<Step>)
    ensures SessionAfter(history).None? <==> NoneAnnounced(history)
    ensures SessionAfter(history).Some? ==> exists i: nat :: FirstAnnounced(history, i, SessionAfter(history).value)
  {
    if history != [] {
      var last := |history| - 1;
      var front, s := history[..last], history[last];
      SessionIsFirst(front);
      SessionStep(front, s);
      assert history == front + [s];
    }
  }

  lemma SessionStep(front: seq<Step>, s: Step)
    requires SessionAfter(front).None? <==> NoneAnnounced(front)
    requires SessionAfter(front).Some? ==> exists i: nat :: FirstAnnounced(front, i, SessionAfter(front).value)
    ensures var history := front + [s];
      && (SessionAfter(history).None? <==> NoneAnnounced(history))
      && (SessionAfter(history).Some? ==> exists i: nat :: FirstAnnounced(history, i, SessionAfter(history).value))
  {
    var history, n := front + [s], |front|;
    assert history[..n] == front && history[n] == s;
    if Resets(s) {
      assert NoneAnnounced(history);
    } else {
      NoneAnnouncedStep(front, s);
      if SessionAfter(front).Some? {
        var i: nat :| FirstAnnounced(front, i, SessionAfter(front).value);
        assert FirstAnnounced(history, i, SessionAfter(front).value);
      } else if s.Fetch? && s.thread.Some? {
        assert FirstAnnounced(history, n, s.thread.value);
      }
    }
  }

  lemma NoneAnnouncedStep(front: seq<Step>, s: Step)
    requires !Resets(s)
    ensures NoneAnnounced(front + [s]) <==> NoneAnnounced(front) && !(s.Fetch? && s.thread.Some?)
  {
    var history, n := front + [s], |front|;
    if NoneAnnounced(history) {
      forall j | 0 <= j < n && front[j].Fetch? && front[j].thread.Some?
        ensures exists k :: j < k < n && Resets(front[k])
      {
        assert history[j] == front[j];
        var k :| j < k < |history| && Resets(history[k]);
        assert front[k] == history[k];
      }
      assert history[n] == s;
    }
    if NoneAnnounced(front) && !(s.Fetch? && s.thread.Some?) {
      forall j | 0 <= j < |history| && history[j].Fetch? && history[j].thread.Some?
        ensures exists k :: j < k < |history| && Resets(history[k])
      {
        assert front[j] == history[j];
        var k :| j < k < n && Resets(front[k]);
        assert history[k] == front[k];
      }
    }
  }

  /** Once known, the session id stays until the next setup or teardown, whatever later turns announce. */
  lemma {:induction false} SessionStays(history: seq<Step>, more: seq<Step>)
    requires SessionAfter(history).Some? && forall s :: s in more ==> !Resets(s)
    ensures SessionAfter(history + more) == SessionAfter(history)
  {
    if more == [] {
      assert history + more == history;
    } else {
      var last := |more| - 1;
      SessionStays(history, more[..last]);
      assert (history + more)[..|history + more| - 1] == history + more[..last];
      assert more[last] in more;
    }
  }

  // ----- the command line -----

  predicate HasSandboxFlag(flags: seq<string>) { exists f :: f in flags && Flags.Name(f) in {"-s", "--sandbox"} }

  /** `[flag, value]` when there is a value. */
  function Optional(flag: string, value: Option<string>): seq<string> {
    if value.Some? && value.value != "" then [flag, value.value] else []
  }

  function Provider(profile: Option<string>): seq<string> {
    if profile.Some? && profile.value != "" then ["-c", "model_provider=\"" + profile.value + "\""] else []
  }

  function Trusted(workspaceDir: Option<string>, quote: string -> string): seq<string> {
    if workspaceDir.Some? && workspaceDir.value != ""
    then ["-c", "projects." + quote(workspaceDir.value) + ".trust_level=\"trusted\""] else []
  }

  /** The command resumes exactly when there is a session, and ends with the filtered flags, `--` and the message. */
  ghost predicate CommandShape(cmd: seq<string>, session: Option<string>, flags: seq<string>, message: string) {
    && |cmd| >= 6 + |flags| && cmd[..2] == ["codex", "exec"]
    && (session.Some? <==> cmd[2] == "resume")
    && (session.Some? ==> cmd[3] == session.value)
    && cmd[|cmd| - 2 - |flags|..] == flags + ["--", message]
  }

  lemma Shaped(head: seq<string>, session: Option<string>, flags: seq<string>, message: string)
    requires |head| >= 6 && head[0] == "codex" && head[1] == "exec"
    requires if session.Some? then head[2] == "resume" && head[3] == session.value else head[2] == "--json"
    ensures CommandShape(head + (flags + ["--", message]), session, flags, message)
  {
    var cmd, tail := head + (flags + ["--", message]), flags + ["--", message];
    assert cmd[0] == head[0] && cmd[1] == head[1] && cmd[2] == head[2] && cmd[3] == head[3];
    assert cmd[..2] == ["codex", "exec"];
    assert |cmd| - 2 - |flags| == |head| && cmd[|head|..] == tail;
    if session.None? { assert head[2][0] == '-'; }
  }

  // ----- the events of one turn -----

  /** An event of the JSON stream; a thread id that is not a string is None. */
  datatype Event =
    | ThreadStarted(thread: Option<string>)
    | AgentMessage(text: string)
    | CommandExecution(id: string, args: Json)
    | TurnFailed(message: string)
    | Other

  function Thread(events: seq<Event>): Option<string> {
    if events == [] then None
    else
      var e := events[|events| - 1];
      if e.ThreadStarted? && e.thread.Some? && e.thread.value != "" then e.thread else Thread(events[..|events| - 1])
  }

  function Messages(events: seq<Event>): seq<string> {
    if events == [] then []
    else
      var e := events[|events| - 1];
      Messages(events[..|events| - 1]) + if e.AgentMessage? && e.text != "" then [e.text] else []
  }

  function Calls(events: seq<Event>): seq<Call> {
    if events == [] then []
    else
      var e := events[|events| - 1];
      Calls(events[..|events| - 1]) + if e.CommandExecution? then [Call("shell", e.id, e.args, None)] else []
  }

  function Failure(events: seq<Event>): Option<string> {
    if events == [] then None
    else
      var e := events[|events| - 1];
      if e.TurnFailed? then Some(e.message) else Failure(events[..|events| - 1])
  }

  predicate Announces(e: Event) { e.ThreadStarted? && e.thread != None && e.thread != Some("") }

  /** The thread is the one announced last. */
  lemma {:induction false} ThreadIsLast(events: seq<Event>)
    ensures Thread(events).None? <==> Nowhere(events, Announces)
    ensures Thread(events).Some? ==>
      exists i: nat :: LastWhere(events, Announces, i) && events[i] == ThreadStarted(Thread(events))
  {
    if events != [] {
      var front, e := events[..|events| - 1], events[|events| - 1];
      ThreadIsLast(front);
      assert events == front + [e];
      LastWhereNext(front, e, Announces, |front|);
      if !Announces(e) && Thread(front).Some? {
        var i: nat :| LastWhere(front, Announces, i) && front[i] == ThreadStarted(Thread(front));
        LastWhereNext(front, e, Announces, i);
      }
    }
  }

  predicate Fails(e: Event) { e.TurnFailed? }

  /** And the failure the one reported last. */
  lemma {:induction false} FailureIsLast(events: seq<Event>)
    ensures Failure(events).None? <==> Nowhere(events, Fails)
    ensures Failure(events).Some? ==>
      exists i: nat :: LastWhere(events, Fails, i) && events[i] == TurnFailed(Failure(events).value)
  {
    if events != [] {
      var front, e := events[..|events| - 1], events[|events| - 1];
      FailureIsLast(front);
      assert events == front + [e];
      LastWhereNext(front, e, Fails, |front|);
      if !Fails(e) && Failure(front).Some? {
        var i: nat :| LastWhere(front, Fails, i) && front[i] == TurnFailed(Failure(front).value);
        LastWhereNext(front, e, Fails, i);
      }
    }
  }

  lemma MessagesNext(front: seq<Event>, e: Event)
    ensures Messages(front + [e]) == Messages(front) + (if e.AgentMessage? && e.text != "" then [e.text] else [])
  {
    assert (front + [e])[..|front|] == front;
  }

  lemma {:induction false} MessagesInParts(a: seq<Event>, b: seq<Event>)
    ensures Messages(a + b) == Messages(a) + Messages(b)
  {
    if b == [] {
      assert a + b == a && Messages(a) + [] == Messages(a);
    } else {
      var front, e := b[..|b| - 1], b[|b| - 1];
      assert b == front + [e];
      MessagesInParts(a, front);
      MessagesNext(front, e);
      Regroup(a, front, [e]);
      MessagesNext(a + front, e);
      Regroup(Messages(a), Messages(front), (if e.AgentMessage? && e.text != "" then [e.text] else []));
    }
  }

  lemma CallsNext(front: seq<Event>, e: Event)
    ensures Calls(front + [e]) ==
      Calls(front) + (if e.CommandExecution? then [Call("shell", e.id, e.args, None)] else [])
  {
    assert (front + [e])[..|front|] == front;
  }

  lemma {:induction false} CallsInParts(a: seq<Event>, b: seq<Event>)
    ensures Calls(a + b) == Calls(a) + Calls(b)
  {
    if b == [] {
      assert a + b == a && Calls(a) + [] == Calls(a);
    } else {
      var front, e := b[..|b| - 1], b[|b| - 1];
      assert b == front + [e];
      CallsInParts(a, front);
      CallsNext(front, e);
      Regroup(a, front, [e]);
      CallsNext(a + front, e);
      Regroup(Calls(a), Calls(front), (if e.CommandExecution? then [Call("shell", e.id, e.args, None)] else []));
    }
  }

  lemma ReadInParts(a: seq<Event>, b: seq<Event>)
    ensures Messages(a + b) == Messages(a) + Messages(b) && Calls(a + b) == Calls(a) + Calls(b)
  {
    MessagesInParts(a, b);
    CallsInParts(a, b);
  }

  lemma OneEvent(e: Event)
    ensures Messages([e]) == (if e.AgentMessage? && e.text != "" then [e.text] else [])
    ensures Calls([e]) == (if e.CommandExecution? then [Call("shell", e.id, e.args, None)] else [])
  {
    assert [e][..0] == [];
  }

  /** Whatever surrounds it, a message that is not empty adds its text in place, and a command one call of the shell. */
  lemma EventInPlace(a: seq<Event>, e: Event, b: seq<Event>)
    ensures Messages(a + [e] + b) ==
      Messages(a) + (if e.AgentMessage? && e.text != "" then [e.text] else []) + Messages(b)
    ensures Calls(a + [e] + b) ==
      Calls(a) + (if e.CommandExecution? then [Call("shell", e.id, e.args, None)] else []) + Calls(b)
  {
    ReadInParts(a, [e]);
    ReadInParts(a + [e], b);
    OneEvent(e);
  }

  /** `s.rstrip("\n")`. */
  function TrimNewlines(s: string): string {
    if s != "" && s[|s| - 1] == '\n' then TrimNewlines(s[..|s| - 1]) else s
  }

  /** Newlines are taken off the end, all of them and nothing else. */
  lemma {:induction false} TrimExact(s: string)
    ensures var t := TrimNewlines(s);
      && t <= s && (forall i :: |t| <= i < |s| ==> s[i] == '\n') && (t != "" ==> t[|t| - 1] != '\n')
  {
    if s != "" && s[|s| - 1] == '\n' { TrimExact(s[..|s| - 1]); }
  }

  /** What was gathered from the events before position `i`. */
  method Gather(events: seq<Event>)
      returns (thread: Option<string>, messages: seq<string>, calls: seq<Call>, sequence: seq<string>,
        failure: Option<string>)
    ensures thread == Thread(events) && messages == Messages(events) && failure == Failure(events)
    ensures calls == Calls(events) && sequence == Names(calls)
  {
    thread, messages, calls, sequence, failure := None, [], [], [], None;
    for i := 0 to |events|
      invariant thread == Thread(events[..i]) && messages == Messages(events[..i]) && failure == Failure(events[..i])
      invariant calls == Calls(events[..i]) && sequence == Names(calls)
    {
      assert events[..i + 1][..i] == events[..i];
      match events[i] {
        case ThreadStarted(id) => if id.Some? && id.value != "" { thread := id; }
        case AgentMessage(text) => if text != "" { messages := messages + [text]; }
        case CommandExecution(id, args) =>
          calls := calls + [Call("shell", id, args, None)];
          sequence := sequence + ["shell"];
        case TurnFailed(message) => failure := Some(message);
        case Other =>
      }
    }
    assert events[..|events|] == events;
  }

  function Reply(lastMessage: string, events: seq<Event>): string {
    if TrimNewlines(lastMessage) != "" then TrimNewlines(lastMessage) else Join("\n", Messages(events))
  }

  /** The turn failed if it said so, or if there is no reply and the raw output reads like a known failure. */
  ghost predicate Judged(hasError: bool, errorType: Option<string>, reply: string, failure: Option<string>, raw: string,
      lower: string -> string)
  {
    var known := NormalizeErrorType(None, [Some(raw)], lower);
    if failure.Some? then hasError && errorType == Some(Classified(None, [failure, Some(raw)], lower))
    else if NonBlank(reply) then !hasError && errorType.None?
    else errorType == known && (hasError <==> known.Some?)
  }

  method JudgeTurn(failure: Option<string>, reply: string, raw: string, lower: string -> string)
      returns (hasError: bool, errorType: Option<string>)
    ensures Judged(hasError, errorType, reply, failure, raw, lower)
    ensures hasError ==> errorType.Some? && errorType.value in ERROR_TYPES
  {
    hasError, errorType := false, None;
    if failure.Some? {
      hasError, errorType := true, Some(Classified(None, [failure, Some(raw)], lower));
    } else if !NonBlank(reply) {
      NormalizedToken(None, [Some(raw)], lower);
      errorType := NormalizeErrorType(None, [Some(raw)], lower);
      hasError := errorType.Some?;
    }
  }

  class CodexAgentAdapter {
    const model: Option<string>
    const profile: Option<string>
    const allowUnsafeFlags: bool
    var sessionId: Option<string>
    var workspaceDir: Option<string>
    var lastMessage: string
    ghost var history: seq<Step>

    ghost predicate Valid()
      reads this
    {
      sessionId == SessionAfter(history)
    }

    constructor (model: Option<string>, profile: Option<string>, allowUnsafeFlags: bool)
      ensures Valid() && history == [] && this.allowUnsafeFlags == allowUnsafeFlags
      ensures this.model == model && this.profile == profile
    {
      this.model, this.profile, this.allowUnsafeFlags := model, profile, allowUnsafeFlags;
      sessionId, workspaceDir, lastMessage := None, None, "";
      history := [];
    }

    method SetUp(workspaceDir: Option<string>)
      modifies this
      ensures Valid() && history == old(history) + [Setup]
      ensures sessionId.None? && lastMessage == "" && this.workspaceDir == workspaceDir
    {
      sessionId, lastMessage := None, "";
      this.workspaceDir := workspaceDir;
      history := history + [Setup];
    }

    method TearDown()
      modifies this
      ensures Valid() && history == old(history) + [Teardown]
      ensures sessionId.None? && lastMessage == "" && workspaceDir == old(workspaceDir)
    {
      sessionId, lastMessage := None, "";
      history := history + [Teardown];
    }

    /** The scenario's flags as they go on the command line. */
    ghost function Allowed(flags: seq<string>): seq<string> {
      if allowUnsafeFlags then flags else Flags.Kept(flags, DENIED, 0)
    }

    method FilterFlags(flags: seq<string>) returns (r: seq<string>)
      ensures r == Allowed(flags)
    {
      if allowUnsafeFlags { r := flags; } else { r := Flags.CheckDeniedFlags(flags, DENIED); }
    }

    method FirstHead(filtered: seq<string>, replyFile: string) returns (head: seq<string>)
      ensures head == ["codex", "exec", "--json", "--skip-git-repo-check", "-o", replyFile]
          + (Optional("-m", model) + Optional("-p", profile) + Optional("-C", workspaceDir)
            + if HasSandboxFlag(filtered) then [] else ["-s", "workspace-write"])
    {
      head := ["codex", "exec", "--json", "--skip-git-repo-check", "-o", replyFile];
      var more := Optional("-m", model);
      more := more + Optional("-p", profile);
      more := more + Optional("-C", workspaceDir);
      more := more + if HasSandboxFlag(filtered) then [] else ["-s", "workspace-write"];
      head := head + more;
    }

    method ResumeHead(id: string, replyFile: string, quote: string -> string) returns (head: seq<string>)
      ensures head == ["codex", "exec", "resume", id, "--json", "-o", replyFile]
          + (Optional("-m", model) + Provider(profile) + Trusted(workspaceDir, quote))
    {
      head := ["codex", "exec", "resume", id, "--json", "-o", replyFile];
      var more := Optional("-m", model);
      more := more + Provider(profile);
      more := more + Trusted(workspaceDir, quote);
      head := head + more;
    }

    /** `quote` is the JSON text of a string. */
    method BuildCommand(message: string, flags: seq<string>, replyFile: string, quote: string -> string)
        returns (cmd: seq<string>)
      requires Valid()
      ensures CommandShape(cmd, SessionAfter(history), Allowed(flags), message)
      ensures SessionAfter(history).None? ==>
        cmd == ["codex", "exec", "--json", "--skip-git-repo-check", "-o", replyFile]
          + (Optional("-m", model) + Optional("-p", profile) + Optional("-C", workspaceDir)
            + if HasSandboxFlag(Allowed(flags)) then [] else ["-s", "workspace-write"])
          + (Allowed(flags) + ["--", message])
      ensures SessionAfter(history).Some? ==>
        cmd == ["codex", "exec", "resume", SessionAfter(history).value, "--json", "-o", replyFile]
          + (Optional("-m", model) + Provider(profile) + Trusted(workspaceDir, quote))
          + (Allowed(flags) + ["--", message])
    {
      var filtered := FilterFlags(flags);
      if sessionId.None? {
        cmd := FirstHead(filtered, replyFile);
        assert cmd[2] == "--json";
      } else {
        cmd := ResumeHead(sessionId.value, replyFile, quote);
        assert cmd[2] == "resume" && cmd[3] == sessionId.value;
      }
      Shaped(cmd, sessionId, filtered, message);
      cmd := cmd + (filtered + ["--", message]);
    }

    /** Runs one turn: `written` is what the process left in its reply file. */
    method Execute(message: string, flags: seq<string>, replyFile: string, written: Option<string>,
        quote: string -> string)
        returns (cmd: seq<string>)
      requires Valid()
      modifies this
      ensures Valid() && history == old(history) + [Step.Execute] && sessionId == old(sessionId)
      ensures workspaceDir == old(workspaceDir) && lastMessage == if written.Some? then written.value else ""
      ensures CommandShape(cmd, SessionAfter(old(history)), Allowed(flags), message)
    {
      cmd := BuildCommand(message, flags, replyFile, quote);
      lastMessage := if written.Some? then written.value else "";
      history := history + [Step.Execute];
    }

    method FetchResults(events: seq<Event>, raw: string, lower: string -> string) returns (o: Output)
      requires Valid()
      modifies this
      ensures Valid() && history == old(history) + [Fetch(Thread(events))]
      ensures workspaceDir == old(workspaceDir) && lastMessage == old(lastMessage)
      ensures Sound(o) && o.calls == Calls(events)
      ensures o.reply == Reply(old(lastMessage), events)
      ensures Judged(o.hasError, o.errorType, o.reply, Failure(events), raw, lower)
    {
      var thread, messages, calls, sequence, failure := Gather(events);
      if thread.Some? && sessionId.None? { sessionId := thread; }
      SessionNext(history, thread);
      history := history + [Fetch(thread)];
      var reply := TrimNewlines(lastMessage);
      if reply == "" { reply := Join("\n", messages); }
      var hasError, errorType := JudgeTurn(failure, reply, raw, lower);
      o := Output(reply, calls, sequence, NonBlank(reply), hasError, errorType);
    }
  }
}
