/** The `Session` tracker of src/debug.ts: one object per debug session,
    kept in a static table by session id, that watches the messages the
    debug adapter sends and keeps the session's run state, its stopped
    thread and its capabilities. Each event an emitter fires is appended
    to a log; the `stackTrace` request a stop sends is logged by the thread
    it names. */
module DebugSession {

  import opened Wrappers
  import opened DebugMemory
  import Uris

  /** The part of an event's body the handlers read. `NoBody` is a missing
      body. */
  datatype EventBody =
    | NoBody
    | StoppedBody(threadId: Option<int>)
    | MemoryBody(e: MemoryEvent)
    | OtherBody

  /** A message from the adapter: a response to a command (with the
      capabilities an `initialize` response carries), an event by name, or
      a message of another type. */
  datatype Message =
    | ResponseMessage(command: string, capabilities: Option<Capabilities>)
    | EventMessage(event: string, body: EventBody)
    | OtherMessage

  /** What one session holds and what it has fired. */
  datatype Tracker = Tracker(
    state: State,
    threadId: Option<int>,
    capabilities: Option<Capabilities>,
    stateEvents: seq<State>,       // `onDidChangeState`
    messages: seq<Message>,        // `onMessage`
    invalidations: seq<EventBody>, // `onDidInvalidateMemory`
    stackTraces: seq<int>)         // `stackTrace` requests, by thread id

  const Fresh := Tracker(Inactive, None, None, [], [], [], [])

  /** The state events agree with the state: the last event fired is the
      current state, and none has fired while the state is the initial
      one. */
  ghost predicate Consistent(t: Tracker) {
    if |t.stateEvents| == 0 then t.state == Inactive else t.stateEvents[|t.stateEvents| - 1] == t.state
  }

  /** The `state` setter: it fires the new state every time, the check for
      an unchanged value being commented out. */
  function WithState(t: Tracker, v: State): (r: Tracker)
    ensures r.state == v && r.stateEvents == t.stateEvents + [v]
    ensures r.(state := t.state, stateEvents := t.stateEvents) == t
  {
    t.(state := v, stateEvents := t.stateEvents + [v])
  }

  /** The outcome of a handler: the new tracker and, when the handler threw
      part way, what it threw. */
  datatype Outcome = Outcome(next: Tracker, thrown: Option<string>)

  const TypeError := "TypeError"

  /** `onDidSendMessage(message)`: the message is fired first, then the
      response or event is handled. A `stopped` event without a body throws
      on reading its thread, before anything else changes. */
  function Receive(t: Tracker, m: Message): (r: Outcome)
    ensures r.next.messages == t.messages + [m]
  {
    var t1 := t.(messages := t.messages + [m]);
    match m
    case ResponseMessage(command, caps) =>
      if command == "initialize" then Outcome(t1.(capabilities := caps), None) else Outcome(t1, None)
    case EventMessage(event, body) =>
      if event == "stopped" then
        if body.NoBody? then Outcome(t1, Some(TypeError))
        else
          var thread := if body.StoppedBody? then body.threadId else None;
          var t2 := t1.(threadId := thread, stackTraces := t1.stackTraces + [thread.GetOr(0)]);
          Outcome(WithState(t2, Stopped), None)
      else if event == "continued" then Outcome(WithState(t1, Running), None)
      else if event == "memory" then Outcome(t1.(invalidations := t1.invalidations + [body]), None)
      else Outcome(t1, None)
    case OtherMessage => Outcome(t1, None)
  }

  /** `onWillStartSession` */
  function Starting(t: Tracker): (r: Tracker)
    ensures r.state == Initializing
  {
    WithState(t, Initializing)
  }

  /** `onWillStopSession` */
  function Stopping(t: Tracker): (r: Tracker)
    ensures r.state == Inactive
  {
    WithState(t, Inactive)
  }

  // ---------------------------------------------------------------------
  // Properties
  // ---------------------------------------------------------------------

  /** Every handler keeps the state events in step with the state. */
  lemma HandlersKeepConsistent(t: Tracker, m: Message)
    requires Consistent(t)
    ensures Consistent(Receive(t, m).next)
    ensures Consistent(Starting(t)) && Consistent(Stopping(t))
  {
  }

  /** Setting the state to the value it has fires it again. */
  lemma RepeatedStateFiresAgain(t: Tracker, v: State)
    ensures var r := WithState(WithState(t, v), v);
      r.state == v && r.stateEvents == t.stateEvents + [v, v]
  {
  }

  /** A `stopped` event records its thread, asks for that thread's stack
      (thread 0 when it names none) and fires `Stopped`. */
  lemma StoppedEvent(t: Tracker, thread: Option<int>)
    ensures var r := Receive(t, EventMessage("stopped", StoppedBody(thread)));
      && r.thrown == None
      && r.next.state == Stopped
      && r.next.threadId == thread
      && r.next.stackTraces == t.stackTraces + [if thread.Some? then thread.value else 0]
      && r.next.stateEvents == t.stateEvents + [Stopped]
      && r.next.capabilities == t.capabilities
  {
  }

  /** A `stopped` event without a body throws and leaves everything but the
      message log as it was. */
  lemma StoppedWithoutBody(t: Tracker)
    ensures var r := Receive(t, EventMessage("stopped", NoBody));
      r.thrown == Some(TypeError) && r.next == t.(messages := t.messages + [EventMessage("stopped", NoBody)])
  {
  }

  /** Only an `initialize` response changes the capabilities, and it sets
      them to its body, absent or not. */
  lemma CapabilitiesOnlyFromInitialize(t: Tracker, m: Message)
    ensures var r := Receive(t, m).next;
      if m.ResponseMessage? && m.command == "initialize" then r.capabilities == m.capabilities
      else r.capabilities == t.capabilities
  {
  }

  /** Only `stopped` and `continued` events and the two session hooks
      change the state; everything else leaves the state and its events
      alone. */
  lemma StateOnlyFromStopAndContinue(t: Tracker, m: Message)
    requires !(m.EventMessage? && (m.event == "stopped" || m.event == "continued"))
    ensures var r := Receive(t, m);
      r.thrown == None && r.next.state == t.state && r.next.stateEvents == t.stateEvents
  {
  }

  /** A `memory` event is passed on as it came and changes nothing else. */
  lemma MemoryEventIsForwarded(t: Tracker, body: EventBody)
    ensures var r := Receive(t, EventMessage("memory", body));
      r == Outcome(t.(messages := t.messages + [EventMessage("memory", body)],
                      invalidations := t.invalidations + [body]), None)
  {
  }

  /** A listener a memory file's `watch` set up sees its file deleted when
      the session continues or stops, and not when it stops at a breakpoint
      or starts. */
  lemma WatcherSeesRunAndStop(t: Tracker, w: MemoryWatch)
    requires w.Listener?
    ensures var r := Receive(t, EventMessage("continued", OtherBody)).next;
      OnStateChange(w, r.stateEvents[|r.stateEvents| - 1]) == [Deleted]
    ensures var r := Stopping(t);
      OnStateChange(w, r.stateEvents[|r.stateEvents| - 1]) == [Deleted]
    ensures var r := Starting(t);
      OnStateChange(w, r.stateEvents[|r.stateEvents| - 1]) == []
    ensures var r := Receive(t, EventMessage("stopped", StoppedBody(None))).next;
      OnStateChange(w, r.stateEvents[|r.stateEvents| - 1]) == []
  {
  }

  // ---------------------------------------------------------------------
  // The objects
  // ---------------------------------------------------------------------

  /** One `Session` object. */
  class Session {
    const id: string
    var state: State
    var threadId: Option<int>
    var capabilities: Option<Capabilities>
    var stateEvents: seq<State>
    var messages: seq<Message>
    var invalidations: seq<EventBody>
    var stackTraces: seq<int>

    function Snapshot(): Tracker
      reads this
    {
      Tracker(state, threadId, capabilities, stateEvents, messages, invalidations, stackTraces)
    }

    constructor (id: string)
      ensures this.id == id && Snapshot() == Fresh
    {
      this.id := id;
      state, threadId, capabilities := Inactive, None, None;
      stateEvents, messages, invalidations, stackTraces := [], [], [], [];
    }

    /** `set state(value)` */
    method SetState(v: State)
      modifies this
      ensures Snapshot() == WithState(old(Snapshot()), v)
    {
      state := v;
      stateEvents := stateEvents + [v];
    }

    method OnWillStartSession()
      modifies this
      ensures Snapshot() == Starting(old(Snapshot()))
    {
      SetState(Initializing);
    }

    method OnWillStopSession()
      modifies this
      ensures Snapshot() == Stopping(old(Snapshot()))
    {
      SetState(Inactive);
    }

    /** `onDidSendMessage(message)`; `thrown` is what it threw, if anything. */
    method OnDidSendMessage(m: Message) returns (thrown: Option<string>)
      modifies this
      ensures Outcome(Snapshot(), thrown) == Receive(old(Snapshot()), m)
    {
      messages := messages + [m];
      thrown := None;
      match m {
        case ResponseMessage(command, caps) =>
          if command == "initialize" {
            capabilities := caps;
          }
        case EventMessage(event, body) =>
          if event == "stopped" {
            if body.NoBody? {
              thrown := Some(TypeError);
              return;
            }
            threadId := if body.StoppedBody? then body.threadId else None;
            stackTraces := stackTraces + [threadId.GetOr(0)];
            SetState(Stopped);
          } else if event == "continued" {
            SetState(Running);
          } else if event == "memory" {
            invalidations := invalidations + [body];
          }
        case OtherMessage =>
      }
    }
  }

  /** `Session.sessions`: the live trackers by session id. */
  class SessionTable {
    var sessions: map<string, Session>

    constructor ()
      ensures sessions == map[]
    {
      sessions := map[];
    }

    /** The capabilities each live session reported, as the memory file
        system reads them. */
    function Capabilities(): (caps: Sessions)
      reads this, sessions.Values
      ensures caps.Keys == sessions.Keys
    {
      map id | id in sessions :: sessions[id].capabilities
    }

    /** `new Session(session)`: the tracker registers itself under its id,
        replacing any tracker registered there before. */
    method Create(id: string) returns (s: Session)
      modifies this
      ensures fresh(s) && s.id == id && s.Snapshot() == Fresh
      ensures sessions == old(sessions)[id := s]
    {
      s := new Session(id);
      sessions := sessions[id := s];
    }

    /** `onExit`: the entry under the tracker's id goes, whichever tracker
        it holds. */
    method OnExit(s: Session)
      modifies this
      ensures sessions == old(sessions) - {s.id}
    {
      sessions := sessions - {s.id};
    }
  }

  /** A session id the capabilities table does not hold is not found by
      the memory file system. */
  lemma ExitedSessionNotFound(caps: Sessions, u: Uris.Uri)
    requires u.authority !in caps
    ensures DebugMemory.ParseUri(u, caps) == Failure(SessionNotFound)
  {
  }

  /** Once a tracker has exited, a memory URI naming its session is not
      found, whether or not the table held it. */
  method ParseAfterExit(t: SessionTable, s: Session, u: Uris.Uri) returns (r: Result<MemoryUri>)
    requires u.authority == s.id
    modifies t
    ensures s.id !in t.sessions && t.sessions == old(t.sessions) - {s.id}
    ensures r == Failure(SessionNotFound)
  {
    t.OnExit(s);
    ExitedSessionNotFound(t.Capabilities(), u);
    r := DebugMemory.ParseUri(u, t.Capabilities());
  }
}
