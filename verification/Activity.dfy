/** The activity messages of one build: its own activity, and those the builder starts inside it. */
module Activities {
  import opened Optional

  datatype Field = Number(n: int) | Str(text: string)

  /** What the start of an activity says of it. */
  datatype Heading = Heading(level: int, kind: int, text: string, fields: seq<Field>)

  /** What the builder prints; the last is someone else of this process taking an id. */
  datatype Event =
    | Line(text: string)
    | SetPhase(phase: string)
    | Message(level: int, text: string)
    | Start(key: int, heading: Heading)
    | Stop(key: int)
    | Result(key: int, kind: int, fields: seq<Field>)
    | Elsewhere

  datatype Log =
    | Started(id: nat, heading: Heading, parent: Option<nat>)
    | Stopped(id: nat)
    | Reported(id: nat, kind: int, fields: seq<Field>)
    | Text(text: string)

  const BUILD_LOG_LINE := 101
  const SET_PHASE := 104
  const INFO := 3
  const BUILD := 105

  /** The heading of a build's own activity. */
  function BuildHeading(drv: string, checking: bool, repairing: bool): (h: Heading) {
    var verb := if repairing then "repairing outputs of" else if checking then "checking outputs of" else "building";
    Heading(INFO, BUILD, verb + " '" + drv + "'", [Str(drv), Str(""), Number(1), Number(1)])
  }

  /** The process id in the high half, the counter in the low one. */
  function ActivityId(pid: nat, counter: nat): nat {
    counter + pid * 0x1_0000_0000
  }

  /** Two ids of one process differ by the counter; those of two processes, by the high half, for 2^32 ids each. */
  lemma IdsDiffer(pid: nat, n: nat, pid': nat, n': nat)
    requires (pid, n) != (pid', n') && n < 0x1_0000_0000 && n' < 0x1_0000_0000
    ensures ActivityId(pid, n) != ActivityId(pid', n')
  {
    if pid < pid' {
      assert (pid' - pid) * 0x1_0000_0000 >= 0x1_0000_0000;
    } else if pid' < pid {
      assert (pid - pid') * 0x1_0000_0000 >= 0x1_0000_0000;
    }
  }

  // ------------------------------------------------------------- the trace of a build

  datatype State = State(own: nat, children: map<int, nat>, log: seq<Log>, pid: nat, counter: nat)

  function Say(st: State, message: Log): (r: State) {
    st.(log := st.log + [message])
  }

  function Emit(verbosity: int, st: State, event: Event): (r: State) {
    match event
    case Line(text) => Say(st, Reported(st.own, BUILD_LOG_LINE, [Str(text)]))
    case SetPhase(phase) => Say(st, Reported(st.own, SET_PHASE, [Str(phase)]))
    case Message(level, text) => if level <= verbosity then Say(st, Text(text + "\n")) else st
    case Start(key, heading) =>
      var child := ActivityId(st.pid, st.counter);
      var begun := Say(st.(counter := st.counter + 1), Started(child, heading, Some(st.own)));
      if key in st.children then Say(begun, Stopped(child)) else begun.(children := st.children[key := child])
    case Stop(key) =>
      if key in st.children then Say(st.(children := st.children - {key}), Stopped(st.children[key])) else st
    case Result(key, kind, fields) => if key in st.children then Say(st, Reported(st.children[key], kind, fields)) else st
    case Elsewhere => st.(counter := st.counter + 1)
  }

  function EmitAll(verbosity: int, st: State, events: seq<Event>): (r: State)
    decreases events
  {
    if events == [] then st else EmitAll(verbosity, Emit(verbosity, st, events[0]), events[1..])
  }

  lemma SomeMember<T>(s: set<T>) returns (x: T)
    requires s != {}
    ensures x in s
  {
    x :| x in s;
  }

  lemma {:induction false} MaxExists(keys: set<int>)
    requires keys != {}
    ensures exists k :: k in keys && forall j | j in keys :: j <= k
  {
    var k := SomeMember(keys);
    var rest := keys - {k};
    if rest != {} {
      MaxExists(rest);
      var m :| m in rest && forall j | j in rest :: j <= m;
      assert forall j | j in keys :: j == k || j in rest;
      if k <= m {
        assert m in keys;
      } else {
        assert forall j | j in keys :: j <= k;
      }
    } else {
      assert keys == {k};
    }
  }

  /** The children stop from the highest key down. */
  ghost function StopChildren(st: State): (r: State)
    decreases st.children.Keys
  {
    if st.children.Keys == {} then st
    else
      MaxExists(st.children.Keys);
      var key :| key in st.children.Keys && forall j | j in st.children.Keys :: j <= key;
      StopChildren(Say(st.(children := st.children - {key}), Stopped(st.children[key])))
  }

  ghost function Finish(st: State): (r: State) {
    Say(StopChildren(st), Stopped(st.own))
  }

  /** An activity whose id was taken before, at its own start message. */
  function Begin(own: nat, heading: Heading, pid: nat, counter: nat): (r: State) {
    State(own, map[], [Started(own, heading, None)], pid, counter)
  }

  // ------------------------------------------------------------------ the class

  /** The counter of the process. */
  class Counter {
    const pid: nat
    var next: nat

    constructor (pid: nat)
      ensures this.pid == pid && next == 0
    {
      this.pid, next := pid, 0;
    }

    method NextActivityId() returns (id: nat)
      modifies this
      ensures id == ActivityId(pid, old(next)) && next == old(next) + 1
    {
      id := ActivityId(pid, next);
      next := next + 1;
    }
  }

  class BuildActivity {
    const id: nat
    const heading: Heading
    const verbosity: int
    const ids: Counter
    var children: map<int, nat>
    /** What the receiver of the messages was sent. */
    var sent: seq<Log>

    ghost function View(): (st: State)
      reads this, ids
    {
      State(id, children, sent, ids.pid, ids.next)
    }

    constructor (ids: Counter, drv: string, verbosity: int, checking: bool, repairing: bool)
      modifies ids
      ensures this.ids == ids && this.verbosity == verbosity && heading == BuildHeading(drv, checking, repairing)
      ensures children == map[] && sent == []
      ensures id == ActivityId(ids.pid, old(ids.next)) && ids.next == old(ids.next) + 1
    {
      this.ids, this.verbosity, children, sent := ids, verbosity, map[], [];
      heading := BuildHeading(drv, checking, repairing);
      var n := ids.NextActivityId();
      this.id := n;
    }

    method OnLog(message: Log)
      modifies this`sent
      ensures sent == old(sent) + [message]
    {
      sent := sent + [message];
    }

    method Open()
      requires children == map[] && sent == []
      modifies this
      ensures View() == Begin(id, heading, ids.pid, ids.next) && ids.next == old(ids.next)
    {
      OnLog(Started(id, heading, None));
    }

    method EmitOne(output: Event)
      modifies this, ids
      ensures View() == Emit(verbosity, old(View()), output)
    {
      match output {
        case Line(text) =>
          OnLog(Reported(id, BUILD_LOG_LINE, [Str(text)]));
        case SetPhase(phase) =>
          OnLog(Reported(id, SET_PHASE, [Str(phase)]));
        case Message(level, text) =>
          if level <= verbosity {
            OnLog(Text(text + "\n"));
          }
        case Start(key, heading) =>
          var child := ids.NextActivityId();
          OnLog(Started(child, heading, Some(id)));
          if key in children {
            OnLog(Stopped(child));
          } else {
            children := children[key := child];
          }
        case Stop(key) =>
          if key in children {
            var child := children[key];
            children := children - {key};
            OnLog(Stopped(child));
          }
        case Result(key, kind, fields) =>
          if key in children {
            OnLog(Reported(children[key], kind, fields));
          }
        case Elsewhere =>
          var taken := ids.NextActivityId();
      }
    }

    method EmitOutputs(outputs: seq<Event>)
      modifies this, ids
      ensures View() == EmitAll(verbosity, old(View()), outputs)
    {
      for i := 0 to |outputs|
        invariant EmitAll(verbosity, View(), outputs[i..]) == EmitAll(verbosity, old(View()), outputs)
      {
        assert outputs[i..][1..] == outputs[i + 1..];
        EmitOne(outputs[i]);
      }
    }

    method Close()
      modifies this
      ensures View() == Finish(old(View()))
    {
      while children.Keys != {}
        invariant StopChildren(View()) == old(StopChildren(View()))
        decreases children.Keys
      {
        MaxExists(children.Keys);
        var key :| key in children.Keys && forall j | j in children.Keys :: j <= key;
        StopsHighest(View(), key);
        var child := children[key];
        children := children - {key};
        OnLog(Stopped(child));
      }
      OnLog(Stopped(id));
    }
  }

  lemma StopsHighest(st: State, key: int)
    requires key in st.children.Keys && forall j | j in st.children.Keys :: j <= key
    ensures StopChildren(st) == StopChildren(Say(st.(children := st.children - {key}), Stopped(st.children[key])))
  {
  }

  // ------------------------------------------------------------- what a trace must be

  /**
    All started ids differ; each started activity is stopped once, later; each report names an activity that
    was started and is not stopped yet.
   */
  ghost predicate Balanced(log: seq<Log>) {
    && (forall i, j | 0 <= i < j < |log| && log[i].Started? && log[j].Started? :: log[i].id != log[j].id)
    && (forall i | 0 <= i < |log| && log[i].Started? :: StoppedOnceAfter(log, i))
    && (forall k | 0 <= k < |log| && log[k].Reported? :: OpenAt(log, k, log[k].id))
    && (forall k | 0 <= k < |log| && log[k].Stopped? :: OpenAt(log, k, log[k].id))
  }

  ghost predicate StoppedOnceAfter(log: seq<Log>, i: nat)
    requires i < |log| && log[i].Started?
  {
    exists j :: i < j < |log| && log[j] == Stopped(log[i].id) &&
                forall k | 0 <= k < |log| && log[k] == Stopped(log[i].id) :: k == j
  }

  /** Before position k the activity was started and not stopped. */
  ghost predicate OpenAt(log: seq<Log>, k: nat, id: nat)
    requires k <= |log|
  {
    && (exists i :: 0 <= i < k && log[i].Started? && log[i].id == id)
    && (forall j | 0 <= j < k :: log[j] != Stopped(id))
  }

  /** Everything a balanced trace asks, but for the activities still open. */
  ghost predicate Orderly(log: seq<Log>) {
    && (forall i, j | 0 <= i < j < |log| && log[i].Started? && log[j].Started? :: log[i].id != log[j].id)
    && (forall k | 0 <= k < |log| && log[k].Reported? :: OpenAt(log, k, log[k].id))
    && (forall k | 0 <= k < |log| && log[k].Stopped? :: OpenAt(log, k, log[k].id))
  }

  ghost predicate IsOpen(log: seq<Log>, id: nat) {
    OpenAt(log, |log|, id)
  }

  ghost predicate Fits(log: seq<Log>, m: Log) {
    && (m.Started? ==> forall i | 0 <= i < |log| && log[i].Started? :: log[i].id != m.id)
    && (m.Stopped? || m.Reported? ==> IsOpen(log, m.id))
  }

  lemma OpenAtAppend(log: seq<Log>, m: Log, k: nat, id: nat)
    requires k <= |log|
    ensures OpenAt(log + [m], k, id) == OpenAt(log, k, id)
  {
    assert forall i | 0 <= i < k :: (log + [m])[i] == log[i];
  }

  lemma OrderlyAppend(log: seq<Log>, m: Log)
    requires Orderly(log) && Fits(log, m)
    ensures Orderly(log + [m])
  {
    var more := log + [m];
    forall k | 0 <= k < |more| && (more[k].Reported? || more[k].Stopped?)
      ensures OpenAt(more, k, more[k].id)
    {
      OpenAtAppend(log, m, k, more[k].id);
    }
  }

  /** What is open after one more message. */
  lemma OpenAfter(log: seq<Log>, m: Log, id: nat)
    requires Orderly(log) && Fits(log, m)
    ensures IsOpen(log + [m], id) <==> m != Stopped(id) && (IsOpen(log, id) || (m.Started? && m.id == id))
  {
    var more := log + [m];
    assert forall i | 0 <= i < |log| :: more[i] == log[i];
    assert more[|log|] == m;
    assert m.Started? && m.id == id ==> forall k | 0 <= k < |log| :: log[k] != Stopped(id);
  }

  /** A trace with nothing left open is balanced. */
  lemma NothingOpenIsBalanced(log: seq<Log>)
    requires Orderly(log) && forall id :: !IsOpen(log, id)
    ensures Balanced(log)
  {
    forall i | 0 <= i < |log| && log[i].Started?
      ensures StoppedOnceAfter(log, i)
    {
      var id := log[i].id;
      assert !IsOpen(log, id);
      var j :| 0 <= j < |log| && log[j] == Stopped(id);
      assert OpenAt(log, j, id);
      forall k | 0 <= k < |log| && log[k] == Stopped(id)
        ensures k == j
      {
        assert OpenAt(log, k, id);
      }
    }
  }

  // --------------------------------------------------------------- the run's invariant

  ghost predicate Remembers(children: map<int, nat>, id: nat) {
    exists k :: k in children && children[k] == id
  }

  /** The open activities are the build's own and the children it remembers, and ids to come are new. */
  ghost predicate Inv(st: State) {
    && Orderly(st.log)
    && (forall id :: IsOpen(st.log, id) <==> id == st.own || Remembers(st.children, id))
    && (forall k, j | k in st.children && j in st.children && k != j :: st.children[k] != st.children[j])
    && !Remembers(st.children, st.own)
    && (forall i | 0 <= i < |st.log| && st.log[i].Started? :: st.log[i].id < ActivityId(st.pid, st.counter))
    && |st.log| > 0 && st.log[0].Started? && st.log[0].id == st.own
  }

  /** A message about an open activity, or about none, that leaves the open activities as they are. */
  lemma SayKeeps(st: State, m: Log)
    requires Inv(st) && (m.Text? || (m.Reported? && IsOpen(st.log, m.id)))
    ensures Inv(Say(st, m))
  {
    OrderlyAppend(st.log, m);
    forall id
      ensures IsOpen(st.log + [m], id) <==> IsOpen(st.log, id)
    {
      OpenAfter(st.log, m, id);
    }
  }

  lemma StartKeeps(st: State, key: int, heading: Heading)
    requires Inv(st) && key !in st.children
    ensures var child := ActivityId(st.pid, st.counter);
            Inv(Say(st.(counter := st.counter + 1, children := st.children[key := child]), Started(child, heading, Some(st.own))))
  {
    var child := ActivityId(st.pid, st.counter);
    var m := Started(child, heading, Some(st.own));
    var r := Say(st.(counter := st.counter + 1, children := st.children[key := child]), m);
    OrderlyAppend(st.log, m);
    assert !IsOpen(st.log, child);
    assert r.children[key] == child;
    forall id
      ensures IsOpen(r.log, id) <==> id == r.own || Remembers(r.children, id)
    {
      OpenAfter(st.log, m, id);
      if Remembers(st.children, id) {
        var k :| k in st.children && st.children[k] == id;
        assert r.children[k] == id;
      }
    }
  }

  lemma StopKeeps(st: State, key: int)
    requires Inv(st) && key in st.children
    ensures Inv(Say(st.(children := st.children - {key}), Stopped(st.children[key])))
  {
    var m := Stopped(st.children[key]);
    var r := Say(st.(children := st.children - {key}), m);
    assert Remembers(st.children, st.children[key]);
    OrderlyAppend(st.log, m);
    forall id
      ensures IsOpen(r.log, id) <==> id == r.own || Remembers(r.children, id)
    {
      OpenAfter(st.log, m, id);
      if Remembers(st.children, id) && id != st.children[key] {
        var k :| k in st.children && st.children[k] == id;
        assert r.children[k] == id;
      }
    }
  }

  /** A key that is taken: the new activity starts and stops at once. */
  lemma TakenKeyKeeps(st: State, heading: Heading)
    requires Inv(st)
    ensures var child := ActivityId(st.pid, st.counter);
            Inv(Say(Say(st.(counter := st.counter + 1), Started(child, heading, Some(st.own))), Stopped(child)))
  {
    var child := ActivityId(st.pid, st.counter);
    var begin, end := Started(child, heading, Some(st.own)), Stopped(child);
    assert !IsOpen(st.log, child);
    OrderlyAppend(st.log, begin);
    OpenAfter(st.log, begin, child);
    OrderlyAppend(st.log + [begin], end);
    forall id
      ensures IsOpen(st.log + [begin] + [end], id) <==> IsOpen(st.log, id)
    {
      OpenAfter(st.log, begin, id);
      OpenAfter(st.log + [begin], end, id);
    }
  }

  lemma EmitKeeps(verbosity: int, st: State, event: Event)
    requires Inv(st)
    ensures Inv(Emit(verbosity, st, event)) && Emit(verbosity, st, event).own == st.own
  {
    match event
    case Line(text) => SayKeeps(st, Reported(st.own, BUILD_LOG_LINE, [Str(text)]));
    case SetPhase(phase) => SayKeeps(st, Reported(st.own, SET_PHASE, [Str(phase)]));
    case Message(_, text) => SayKeeps(st, Text(text + "\n"));
    case Start(key, heading) => if key in st.children { TakenKeyKeeps(st, heading); } else { StartKeeps(st, key, heading); }
    case Stop(key) => if key in st.children { StopKeeps(st, key); }
    case Result(key, kind, fields) =>
      if key in st.children {
        assert Remembers(st.children, st.children[key]);
        SayKeeps(st, Reported(st.children[key], kind, fields));
      }
    case Elsewhere =>
  }

  lemma {:induction false} EmitAllKeeps(verbosity: int, st: State, events: seq<Event>)
    requires Inv(st)
    ensures Inv(EmitAll(verbosity, st, events)) && EmitAll(verbosity, st, events).own == st.own
    decreases events
  {
    if events != [] {
      EmitKeeps(verbosity, st, events[0]);
      EmitAllKeeps(verbosity, Emit(verbosity, st, events[0]), events[1..]);
    }
  }

  lemma {:induction false} StopChildrenKeeps(st: State)
    requires Inv(st)
    ensures Inv(StopChildren(st)) && StopChildren(st).children == map[] && StopChildren(st).own == st.own
    decreases st.children.Keys
  {
    if st.children.Keys != {} {
      MaxExists(st.children.Keys);
      var key :| key in st.children.Keys && forall j | j in st.children.Keys :: j <= key;
      StopKeeps(st, key);
      StopsHighest(st, key);
      StopChildrenKeeps(Say(st.(children := st.children - {key}), Stopped(st.children[key])));
    }
  }

  /** A new activity: its id was taken some time before. */
  lemma BeginKeeps(own: nat, heading: Heading, pid: nat, counter: nat)
    requires own < ActivityId(pid, counter)
    ensures Inv(Begin(own, heading, pid, counter))
  {
    var st := Begin(own, heading, pid, counter);
    assert forall id :: IsOpen(st.log, id) <==> id == st.own by {
      assert st.log[0] == Started(st.own, heading, None);
    }
  }

  /** All the messages of a build, from start to stop. */
  ghost function Trace(own: nat, heading: Heading, pid: nat, counter: nat, verbosity: int, events: seq<Event>): (r: seq<Log>) {
    Finish(EmitAll(verbosity, Begin(own, heading, pid, counter), events)).log
  }

  /**
    Whatever the builder prints between start and stop, ids it reuses or never stops included: the trace is
    balanced, and the build's own activity is the first to open and the last to close.
   */
  lemma TraceIsBalanced(own: nat, heading: Heading, pid: nat, counter: nat, verbosity: int, events: seq<Event>)
    requires own < ActivityId(pid, counter)
    ensures var log := Trace(own, heading, pid, counter, verbosity, events);
            && Balanced(log)
            && |log| >= 2 && log[0] == Started(own, heading, None) && log[|log| - 1] == Stopped(own)
  {
    var st := Begin(own, heading, pid, counter);
    BeginKeeps(own, heading, pid, counter);
    EmitAllKeeps(verbosity, st, events);
    var before := EmitAll(verbosity, st, events);
    StopChildrenKeeps(before);
    var last := StopChildren(before);
    StartStays(verbosity, st, events);
    StopChildrenStays(before);
    OrderlyAppend(last.log, Stopped(own));
    forall id
      ensures !IsOpen(last.log + [Stopped(own)], id)
    {
      OpenAfter(last.log, Stopped(own), id);
    }
    NothingOpenIsBalanced(last.log + [Stopped(own)]);
  }

  lemma {:induction false} StartStays(verbosity: int, st: State, events: seq<Event>)
    requires |st.log| > 0
    ensures |EmitAll(verbosity, st, events).log| > 0 && EmitAll(verbosity, st, events).log[0] == st.log[0]
    decreases events
  {
    if events != [] {
      StartStays(verbosity, Emit(verbosity, st, events[0]), events[1..]);
    }
  }

  lemma {:induction false} StopChildrenStays(st: State)
    requires |st.log| > 0
    ensures |StopChildren(st).log| > 0 && StopChildren(st).log[0] == st.log[0]
    decreases st.children.Keys
  {
    if st.children.Keys != {} {
      MaxExists(st.children.Keys);
      var key :| key in st.children.Keys && forall j | j in st.children.Keys :: j <= key;
      StopsHighest(st, key);
      StopChildrenStays(Say(st.(children := st.children - {key}), Stopped(st.children[key])));
    }
  }

  // ------------------------------------------------------------- what the client is told

  /** What a client makes of a message that is about the build itself, about no activity, or the start of a child. */
  datatype Word =
    | ALine(text: string) | APhase(phase: string) | AMessage(text: string) | AChild(heading: Heading) | Garbled

  function Understood(own: nat, m: Log): (r: seq<Word>) {
    match m
    case Started(id, heading, parent) => if id == own then [] else [if parent == Some(own) then AChild(heading) else Garbled]
    case Stopped(_) => []
    case Text(text) => [if text != "" && text[|text| - 1] == '\n' then AMessage(text[..|text| - 1]) else Garbled]
    case Reported(id, kind, fields) =>
      if id != own then []
      else if |fields| != 1 || !fields[0].Str? then [Garbled]
      else if kind == BUILD_LOG_LINE then [ALine(fields[0].text)]
      else if kind == SET_PHASE then [APhase(fields[0].text)]
      else [Garbled]
  }

  /** What the client understands of a whole log, in order. */
  function Hears(own: nat, log: seq<Log>): (r: seq<Word>) {
    if log == [] then [] else Hears(own, log[..|log| - 1]) + Understood(own, log[|log| - 1])
  }

  /** What the builder says with an event: a line, a phase, a message not too detailed for the client, or a child's start. */
  function Says(verbosity: int, event: Event): (r: seq<Word>) {
    match event
    case Line(text) => [ALine(text)]
    case SetPhase(phase) => [APhase(phase)]
    case Message(level, text) => if level <= verbosity then [AMessage(text)] else []
    case Start(_, heading) => [AChild(heading)]
    case _ => []
  }

  function SaysAll(verbosity: int, events: seq<Event>): (r: seq<Word>) {
    if events == [] then [] else Says(verbosity, events[0]) + SaysAll(verbosity, events[1..])
  }

  lemma HearsMore(own: nat, log: seq<Log>, m: Log)
    ensures Hears(own, log + [m]) == Hears(own, log) + Understood(own, m)
    ensures Understood(own, m) == [] ==> Hears(own, log + [m]) == Hears(own, log)
  {
    assert (log + [m])[..|log|] == log;
  }

  lemma MessageIsUnderstood(own: nat, text: string)
    ensures Understood(own, Text(text + "\n")) == [AMessage(text)]
  {
    assert (text + "\n")[..|text|] == text;
  }

  lemma EmitIsHeard(verbosity: int, st: State, event: Event)
    requires Inv(st)
    ensures Hears(st.own, Emit(verbosity, st, event).log) == Hears(st.own, st.log) + Says(verbosity, event)
  {
    match event
    case Line(text) => HearsMore(st.own, st.log, Reported(st.own, BUILD_LOG_LINE, [Str(text)]));
    case SetPhase(phase) => HearsMore(st.own, st.log, Reported(st.own, SET_PHASE, [Str(phase)]));
    case Message(_, text) =>
      HearsMore(st.own, st.log, Text(text + "\n"));
      MessageIsUnderstood(st.own, text);
    case Start(_, heading) =>
      var child := ActivityId(st.pid, st.counter);
      assert child != st.own;
      HearsMore(st.own, st.log, Started(child, heading, Some(st.own)));
      HearsMore(st.own, st.log + [Started(child, heading, Some(st.own))], Stopped(child));
    case _ => EmitIsQuiet(verbosity, st, event);
  }

  /** What else happens to the children is no word about the build. */
  lemma EmitIsQuiet(verbosity: int, st: State, event: Event)
    requires Inv(st) && (event.Stop? || event.Result? || event.Elsewhere?)
    ensures Hears(st.own, Emit(verbosity, st, event).log) == Hears(st.own, st.log)
  {
    match event
    case Stop(key) => if key in st.children { HearsMore(st.own, st.log, Stopped(st.children[key])); }
    case Result(key, kind, fields) =>
      if key in st.children {
        assert Remembers(st.children, st.children[key]);
        HearsMore(st.own, st.log, Reported(st.children[key], kind, fields));
      }
    case Elsewhere =>
  }

  lemma {:induction false} AllIsHeard(verbosity: int, st: State, events: seq<Event>)
    requires Inv(st)
    ensures Hears(st.own, EmitAll(verbosity, st, events).log) == Hears(st.own, st.log) + SaysAll(verbosity, events)
    decreases events
  {
    if events != [] {
      EmitKeeps(verbosity, st, events[0]);
      EmitIsHeard(verbosity, st, events[0]);
      Regroup(Hears(st.own, st.log), Says(verbosity, events[0]), SaysAll(verbosity, events[1..]));
      AllIsHeard(verbosity, Emit(verbosity, st, events[0]), events[1..]);
    }
  }

  lemma {:induction false} StopIsQuiet(own: nat, st: State)
    ensures Hears(own, StopChildren(st).log) == Hears(own, st.log)
    decreases st.children.Keys
  {
    if st.children.Keys != {} {
      MaxExists(st.children.Keys);
      var key :| key in st.children.Keys && forall j | j in st.children.Keys :: j <= key;
      StopsHighest(st, key);
      HearsMore(own, st.log, Stopped(st.children[key]));
      StopIsQuiet(own, Say(st.(children := st.children - {key}), Stopped(st.children[key])));
    }
  }

  /**
    The client, reading a whole trace back, gets exactly the builder's lines, phases and audible messages, each with its
    text, and the headings of the activities the builder started, each a child of the build's own; all interleaved as the
    builder printed them, and nothing the client cannot make sense of.
   */
  lemma ClientIsTold(own: nat, heading: Heading, pid: nat, counter: nat, verbosity: int, events: seq<Event>)
    requires own < ActivityId(pid, counter)
    ensures Hears(own, Trace(own, heading, pid, counter, verbosity, events)) == SaysAll(verbosity, events)
  {
    var st := Begin(own, heading, pid, counter);
    BeginKeeps(own, heading, pid, counter);
    assert st.log == [] + [Started(own, heading, None)];
    HearsMore(own, [], Started(own, heading, None));
    AllIsHeard(verbosity, st, events);
    EmitAllKeeps(verbosity, st, events);
    var before := EmitAll(verbosity, st, events);
    StopIsQuiet(own, before);
    HearsMore(own, StopChildren(before).log, Stopped(own));
  }

  /** A start under a free key opens a new activity for the key; under a taken one, it leaves that key its activity. */
  lemma StartOpens(verbosity: int, st: State, key: int, heading: Heading)
    requires Inv(st)
    ensures var t := Emit(verbosity, st, Start(key, heading));
            && key in t.children && IsOpen(t.log, t.children[key])
            && (key in st.children ==> t.children == st.children)
            && (key !in st.children ==> !IsOpen(st.log, t.children[key]) && t.children - {key} == st.children - {key})
  {
    var t := Emit(verbosity, st, Start(key, heading));
    EmitKeeps(verbosity, st, Start(key, heading));
    assert Remembers(t.children, t.children[key]);
  }

  /** A stop closes the activity of its key at once, frees the key and touches no other. */
  lemma StopCloses(verbosity: int, st: State, key: int)
    requires Inv(st) && key in st.children
    ensures var t := Emit(verbosity, st, Stop(key));
            && IsOpen(st.log, st.children[key]) && !IsOpen(t.log, st.children[key])
            && t.children == st.children - {key}
  {
    var t := Emit(verbosity, st, Stop(key));
    EmitKeeps(verbosity, st, Stop(key));
    assert Remembers(st.children, st.children[key]);
    assert !Remembers(t.children, st.children[key]);
  }

  /** What the reports of one kind on one activity carry, in order. */
  function Carried(id: nat, kind: int, log: seq<Log>): (r: seq<seq<Field>>) {
    if log == [] then []
    else Carried(id, kind, log[..|log| - 1]) + CarriedBy(id, kind, log[|log| - 1])
  }

  function CarriedBy(id: nat, kind: int, m: Log): (r: seq<seq<Field>>) {
    if m.Reported? && m.id == id && m.kind == kind then [m.fields] else []
  }

  lemma CarriedMore(id: nat, kind: int, log: seq<Log>, m: Log)
    ensures Carried(id, kind, log + [m]) == Carried(id, kind, log) + CarriedBy(id, kind, m)
    ensures CarriedBy(id, kind, m) == [] ==> Carried(id, kind, log + [m]) == Carried(id, kind, log)
  {
    assert (log + [m])[..|log|] == log;
  }

  lemma Regroup<T>(a: seq<T>, b: seq<T>, c: seq<T>)
    ensures a + (b + c) == a + b + c
  {
  }

  /** What the builder reported of one kind under one key. */
  function Results(key: int, kind: int, events: seq<Event>): (r: seq<seq<Field>>) {
    if events == [] then []
    else
      (if events[0].Result? && events[0].key == key && events[0].kind == kind then [events[0].fields] else [])
      + Results(key, kind, events[1..])
  }

  /** What one event adds to the reports of a kind on an activity. */
  function Added(st: State, event: Event, id: nat, kind: int): (r: seq<seq<Field>>) {
    if event.Line? && id == st.own && kind == BUILD_LOG_LINE then [[Str(event.text)]]
    else if event.SetPhase? && id == st.own && kind == SET_PHASE then [[Str(event.phase)]]
    else if event.Result? && event.key in st.children && st.children[event.key] == id && event.kind == kind then [event.fields]
    else []
  }

  lemma EmitAdds(verbosity: int, st: State, event: Event, id: nat, kind: int)
    ensures Carried(id, kind, Emit(verbosity, st, event).log) == Carried(id, kind, st.log) + Added(st, event, id, kind)
  {
    match event
    case Line(text) => CarriedMore(id, kind, st.log, Reported(st.own, BUILD_LOG_LINE, [Str(text)]));
    case SetPhase(phase) => CarriedMore(id, kind, st.log, Reported(st.own, SET_PHASE, [Str(phase)]));
    case Result(key, k, fields) =>
      if key in st.children {
        CarriedMore(id, kind, st.log, Reported(st.children[key], k, fields));
      }
    case _ =>
      EmitAddsNothing(verbosity, st, event, id, kind);
  }

  lemma EmitAddsNothing(verbosity: int, st: State, event: Event, id: nat, kind: int)
    requires !event.Line? && !event.SetPhase? && !event.Result?
    ensures Carried(id, kind, Emit(verbosity, st, event).log) == Carried(id, kind, st.log)
  {
    match event
    case Message(_, text) => CarriedMore(id, kind, st.log, Text(text + "\n"));
    case Start(_, heading) =>
      var child := ActivityId(st.pid, st.counter);
      CarriedMore(id, kind, st.log, Started(child, heading, Some(st.own)));
      CarriedMore(id, kind, st.log + [Started(child, heading, Some(st.own))], Stopped(child));
    case Stop(key) => if key in st.children { CarriedMore(id, kind, st.log, Stopped(st.children[key])); }
    case Elsewhere =>
  }

  lemma ChildAdds(verbosity: int, st: State, event: Event, key: int, kind: int)
    requires Inv(st) && key in st.children && event != Stop(key)
    ensures key in Emit(verbosity, st, event).children
    ensures Emit(verbosity, st, event).children[key] == st.children[key]
    ensures Added(st, event, st.children[key], kind)
         == if event.Result? && event.key == key && event.kind == kind then [event.fields] else []
  {
    assert Remembers(st.children, st.children[key]);
  }

  /** Until it is stopped, the child of a key keeps its id and gets exactly the results of the key, in order. */
  lemma {:induction false} ResultsReachChild(verbosity: int, st: State, events: seq<Event>, key: int, kind: int)
    requires Inv(st) && key in st.children && forall i | 0 <= i < |events| :: events[i] != Stop(key)
    ensures var t := EmitAll(verbosity, st, events);
            && key in t.children && t.children[key] == st.children[key]
            && Carried(st.children[key], kind, t.log) == Carried(st.children[key], kind, st.log) + Results(key, kind, events)
    decreases events
  {
    if events != [] {
      assert events[0] != Stop(key);
      var child := st.children[key];
      EmitKeeps(verbosity, st, events[0]);
      EmitAdds(verbosity, st, events[0], child, kind);
      ChildAdds(verbosity, st, events[0], key, kind);
      Regroup(Carried(child, kind, st.log), Added(st, events[0], child, kind), Results(key, kind, events[1..]));
      ResultsReachChild(verbosity, Emit(verbosity, st, events[0]), events[1..], key, kind);
    }
  }
}
