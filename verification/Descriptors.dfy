/** The process-wide stream registry and descriptor table, under constructors, writes and closes in any order. */
module Descriptors {
  import opened Basics

  type Identity = nat
  type Fd = nat

  datatype StreamKind = OperationalKind | AuditKind

  /** `register`: the registry after registering, None when another kind holds the identity. */
  function Registered(kinds: map<Identity, StreamKind>, id: Identity, kind: StreamKind): Option<map<Identity,
                      StreamKind>> {
    if id !in kinds then Some(kinds[id := kind])
    else if kinds[id] != kind then None
    else Some(kinds)
  }

  /** A sink object, constructed or still inside its constructor. */
  datatype Sink = Sink(fd: Fd, id: Identity, kind: StreamKind, constructed: bool, closed: bool)

  datatype State = State(
    kinds: map<Identity, StreamKind>,
    latched: set<Identity>,
    open: map<Fd, Identity>,
    sinks: map<nat, Sink>
  )

  /** A constructor runs as OpenFd, then either Register or Abort; the kernel picks any free descriptor number. */
  datatype Action =
    | OpenFd(name: nat, kind: StreamKind, fd: Fd, id: Identity)
    | Abort(name: nat)
    | Register(name: nat)
    | Write(name: nat, partial: bool)
    | Close(name: nat)

  predicate Enabled(s: State, a: Action) {
    match a
    case OpenFd(name, _, fd, _) => name !in s.sinks && fd !in s.open
    case Abort(name) => name in s.sinks && !s.sinks[name].constructed && !s.sinks[name].closed
    case Register(name) => name in s.sinks && !s.sinks[name].constructed && !s.sinks[name].closed
    case Write(name, _) => name in s.sinks && s.sinks[name].constructed
    case Close(name) => name in s.sinks && s.sinks[name].constructed
  }

  /** The descriptor an action hands to `os.write`, if it reaches that call. */
  function UsedFd(s: State, a: Action): Option<Fd>
    requires Enabled(s, a)
  {
    if a.Write? && !s.sinks[a.name].closed && s.sinks[a.name].id !in s.latched
    then Some(s.sinks[a.name].fd) else None
  }

  /** The sink gives its descriptor back and never uses it again. */
  function Retire(s: State, name: nat): State
    requires name in s.sinks
  {
    s.(open := s.open - {s.sinks[name].fd}, sinks := s.sinks[name := s.sinks[name].(closed := true)])
  }

  function Next(s: State, a: Action): State
    requires Enabled(s, a)
  {
    match a
    case OpenFd(name, kind, fd, id) =>
      s.(open := s.open[fd := id], sinks := s.sinks[name := Sink(fd, id, kind, false, false)])
    case Abort(name) => Retire(s, name)
    case Register(name) =>
      var sink := s.sinks[name];
      (match Registered(s.kinds, sink.id, sink.kind)
       case None => Retire(s, name)
       case Some(kinds) => s.(kinds := kinds, sinks := s.sinks[name := sink.(constructed := true)]))
    case Write(name, partial) =>
      if UsedFd(s, a).Some? && partial then s.(latched := s.latched + {s.sinks[name].id}) else s
    case Close(name) => if s.sinks[name].closed then s else Retire(s, name)
  }

  function Exec(s: State, run: seq<Action>): Option<State> {
    if run == [] then Some(s)
    else
      match Exec(s, run[..|run| - 1])
      case None => None
      case Some(mid) => if Enabled(mid, run[|run| - 1]) then Some(Next(mid, run[|run| - 1])) else None
  }

  const START := State(map[], {}, map[], map[])

  /** The descriptor belongs to a sink under construction or in use. */
  ghost predicate Owned(s: State, fd: Fd) {
    exists n :: n in s.sinks && !s.sinks[n].closed && s.sinks[n].fd == fd
  }

  /** The open descriptors are exactly those of live sinks, one each, and streams never mix kinds. */
  ghost predicate Inv(s: State) {
    && (forall n :: n in s.sinks && !s.sinks[n].closed ==>
          s.sinks[n].fd in s.open && s.open[s.sinks[n].fd] == s.sinks[n].id)
    && (forall fd :: fd in s.open ==> Owned(s, fd))
    && (forall m, n :: m in s.sinks && n in s.sinks && m != n && !s.sinks[m].closed && !s.sinks[n].closed ==>
          s.sinks[m].fd != s.sinks[n].fd)
    && (forall n :: n in s.sinks && s.sinks[n].constructed ==>
          s.sinks[n].id in s.kinds && s.kinds[s.sinks[n].id] == s.sinks[n].kind)
    && (forall id :: id in s.latched ==> id in s.kinds)
  }

  lemma {:induction false} RetireInv(s: State, name: nat)
    requires Inv(s) && name in s.sinks && !s.sinks[name].closed
    ensures Inv(Retire(s, name))
  {
    var s' := Retire(s, name);
    forall fd | fd in s'.open
      ensures Owned(s', fd)
    {
      assert Owned(s, fd);
      var n :| n in s.sinks && !s.sinks[n].closed && s.sinks[n].fd == fd;
      assert n != name && s'.sinks[n] == s.sinks[n];
    }
  }

  lemma {:induction false} StepInv(s: State, a: Action)
    requires Inv(s) && Enabled(s, a)
    ensures Inv(Next(s, a))
  {
    match a
    case OpenFd(name, kind, fd, id) =>
      var s' := Next(s, a);
      forall f | f in s'.open
        ensures Owned(s', f)
      {
        if f == fd {
          assert s'.sinks[name].fd == f;
        } else {
          assert Owned(s, f);
          var n :| n in s.sinks && !s.sinks[n].closed && s.sinks[n].fd == f;
          assert s'.sinks[n] == s.sinks[n];
        }
      }
    case Abort(name) => RetireInv(s, name);
    case Register(name) =>
      if Registered(s.kinds, s.sinks[name].id, s.sinks[name].kind).None? {
        RetireInv(s, name);
      } else {
        RegisterInv(s, name);
      }
    case Write(name, partial) =>
    case Close(name) => if !s.sinks[name].closed { RetireInv(s, name); }
  }

  lemma {:induction false} RegisterInv(s: State, name: nat)
    requires Inv(s) && Enabled(s, Register(name))
    requires Registered(s.kinds, s.sinks[name].id, s.sinks[name].kind).Some?
    ensures Inv(Next(s, Register(name)))
  {
    var s' := Next(s, Register(name));
    forall fd | fd in s'.open
      ensures Owned(s', fd)
    {
      assert Owned(s, fd);
      var n :| n in s.sinks && !s.sinks[n].closed && s.sinks[n].fd == fd;
      assert s'.sinks[n].fd == fd && !s'.sinks[n].closed;
    }
  }

  lemma {:induction false} RunInv(s: State, run: seq<Action>)
    requires Inv(s) && Exec(s, run).Some?
    ensures Inv(Exec(s, run).value)
  {
    if run != [] {
      hide Inv, Next, Enabled;
      RunInv(s, run[..|run| - 1]);
      StepInv(Exec(s, run[..|run| - 1]).value, run[|run| - 1]);
    }
  }

  ghost predicate Live(s: State, n: nat) {
    n in s.sinks && !s.sinks[n].closed
  }

  ghost predicate SameFile(s: State, m: nat, n: nat) {
    m in s.sinks && n in s.sinks && s.sinks[m].constructed && s.sinks[n].constructed && s.sinks[m].id == s.sinks[n].id
  }

  /** In every reachable state: one kind per identity, and each descriptor is open exactly while one sink
      under construction or in use owns it, so a failed construction leaks nothing. */
  lemma {:induction false} StreamsStayIsolated(run: seq<Action>)
    requires Exec(START, run).Some?
    ensures var s := Exec(START, run).value;
            && (forall m, n :: SameFile(s, m, n) ==> s.sinks[m].kind == s.sinks[n].kind)
            && (forall fd :: fd in s.open <==> exists n :: Live(s, n) && s.sinks[n].fd == fd)
            && (forall m, n :: Live(s, m) && Live(s, n) && s.sinks[m].fd == s.sinks[n].fd ==> m == n)
  {
    RunInv(START, run);
    var s := Exec(START, run).value;
    forall fd | fd in s.open
      ensures exists n :: Live(s, n) && s.sinks[n].fd == fd
    {
      assert Owned(s, fd);
      var n :| n in s.sinks && !s.sinks[n].closed && s.sinks[n].fd == fd;
      assert Live(s, n);
    }
  }

  /** A write reaches the kernel only on an open descriptor of the writing sink's own file. */
  lemma {:induction false} WritesUseOwnDescriptor(run: seq<Action>, a: Action)
    requires Exec(START, run).Some? && Enabled(Exec(START, run).value, a)
    requires UsedFd(Exec(START, run).value, a).Some?
    ensures var s := Exec(START, run).value;
            var fd := UsedFd(s, a).value;
            && fd in s.open && s.open[fd] == s.sinks[a.name].id
            && forall n :: Live(s, n) && s.sinks[n].fd == fd ==> n == a.name
  {
    RunInv(START, run);
  }

  /** What no step undoes: registered kinds, latches, and a sink's identity, kind and closed flag. */
  ghost predicate Keeps(s: State, s': State) {
    && (forall id :: id in s.kinds ==> id in s'.kinds && s'.kinds[id] == s.kinds[id])
    && s.latched <= s'.latched
    && forall n :: n in s.sinks ==> n in s'.sinks && SinkKept(s.sinks[n], s'.sinks[n])
  }

  ghost predicate SinkKept(x: Sink, y: Sink) {
    y.fd == x.fd && y.id == x.id && y.kind == x.kind && (x.closed ==> y.closed) && (x.constructed ==> y.constructed)
  }

  /** A sink of the stream's own kind wrote a partial record to it during the run. */
  ghost predicate LatchedBy(s: State, run: seq<Action>, id: Identity) {
    id in s.kinds && exists i :: 0 <= i < |run| && PartialWrite(s, run[i], id)
  }

  ghost predicate PartialWrite(s: State, a: Action, id: Identity) {
    && a.Write? && a.partial && a.name in s.sinks
    && s.sinks[a.name].id == id && id in s.kinds && s.sinks[a.name].kind == s.kinds[id]
  }

  lemma {:induction false} StepKeeps(s: State, a: Action)
    requires Inv(s) && Enabled(s, a)
    ensures Keeps(s, Next(s, a))
    ensures forall id :: id in Next(s, a).latched && id !in s.latched ==> PartialWrite(Next(s, a), a, id)
  {
  }

  lemma {:induction false} KeepsJoin(s: State, mid: State, s': State)
    requires Keeps(s, mid) && Keeps(mid, s')
    ensures Keeps(s, s')
  {
  }

  /** A partial write that a longer run has made is still one of its own. */
  lemma {:induction false} LatchedStill(mid: State, s': State, before: seq<Action>, a: Action, id: Identity)
    requires LatchedBy(mid, before, id) && Keeps(mid, s')
    ensures LatchedBy(s', before + [a], id)
  {
    var i :| 0 <= i < |before| && PartialWrite(mid, before[i], id);
    assert (before + [a])[i] == before[i] && PartialWrite(s', (before + [a])[i], id);
  }

  /** Kinds never change and latches never clear; an operational partial write never latches an audit stream. */
  lemma {:induction false} RunKeeps(s: State, run: seq<Action>)
    requires Inv(s) && Exec(s, run).Some?
    ensures Keeps(s, Exec(s, run).value)
    ensures forall id :: id in Exec(s, run).value.latched && id !in s.latched ==> LatchedBy(Exec(s, run).value, run, id)
  {
    if run != [] {
      hide Inv, Enabled, Next, Keeps, PartialWrite;
      var before, a := run[..|run| - 1], run[|run| - 1];
      var mid := Exec(s, before).value;
      RunKeeps(s, before);
      RunInv(s, before);
      StepKeeps(mid, a);
      var s' := Next(mid, a);
      KeepsJoin(s, mid, s');
      assert run == before + [a];
      forall id | id in s'.latched && id !in s.latched ensures LatchedBy(s', run, id) {
        if id in mid.latched {
          LatchedStill(mid, s', before, a, id);
        } else {
          LatchedLast(s', before, a, id);
        }
      }
    }
  }

  lemma {:induction false} LatchedLast(s': State, before: seq<Action>, a: Action, id: Identity)
    requires PartialWrite(s', a, id)
    ensures LatchedBy(s', before + [a], id)
  {
    assert (before + [a])[|before|] == a;
  }
}
