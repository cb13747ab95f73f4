/**
 On-demand services (daemon/Activation.cpp): messages for a service whose process is not
 there yet are kept until the process connects.
 */
module Activation {
  import opened Bytes

  datatype ProcessState = STOPPED | STARTING | RUNNING | START_FAILED

  /** How the attempt to start the process ends. */
  datatype Launch = Spawned | SpawnFailed | BadDirectory

  /**
   A well-known service and what has happened to the messages given to it: `delivered` went
   to the process, `answered` were answered with an error, `thrown` ended in an exception.
   */
  datatype Activatable<M> = Activatable(
    client: Option<nat>, state: ProcessState, pending: seq<M>,
    delivered: seq<M>, answered: seq<M>, thrown: seq<M>)

  function NewService<M>(): (s: Activatable<M>) {
    Activatable(None, STOPPED, [], [], [], [])
  }

  /** `setClient`: only the first client is taken, and it is given the pending messages. */
  function Connected<M>(s: Activatable<M>, client: nat): (s': Activatable<M>) {
    if s.client.Some? then s
    else s.(client := Some(client), delivered := s.delivered + s.pending, pending := [])
  }

  /** `activateService`: nothing is started twice; `BadDirectory` throws. */
  function Activate(state: ProcessState, launch: Launch): (state': ProcessState) {
    if state == STARTING then STARTING
    else match launch
      case Spawned => STARTING
      case SpawnFailed => START_FAILED
      case BadDirectory => state
  }

  function Throws(state: ProcessState, launch: Launch): (b: bool) {
    state != STARTING && launch == BadDirectory
  }

  function Given<M>(s: Activatable<M>, m: M, launch: Launch): (s': Activatable<M>) {
    if s.client.Some? then s.(delivered := s.delivered + [m])
    else if Throws(s.state, launch) then s.(thrown := s.thrown + [m])
    else
      var state := Activate(s.state, launch);
      if state != START_FAILED then s.(state := state, pending := s.pending + [m])
      else s.(state := state, answered := s.answered + [m])
  }

  class WellKnownService<M> {
    var client: Option<nat>
    var state: ProcessState
    var pendingMessages: seq<M>
    /** Messages written to the client, and error replies sent back. */
    var delivered: seq<M>
    var answered: seq<M>
    var thrown: seq<M>

    function Model(): (s: Activatable<M>)
      reads this
    {
      Activatable(client, state, pendingMessages, delivered, answered, thrown)
    }

    constructor ()
      ensures Model() == NewService()
    {
      client := None;
      state := STOPPED;
      pendingMessages, delivered, answered, thrown := [], [], [], [];
    }

    method SetClient(c: nat) returns (ok: bool)
      modifies this
      ensures ok <==> old(client).None?
      ensures Model() == Connected(old(Model()), c)
    {
      ok := client.None?;
      if ok {
        client := Some(c);
        var i := 0;
        while i < |pendingMessages|
          invariant 0 <= i <= |pendingMessages|
          invariant delivered == old(delivered) + pendingMessages[..i]
          invariant pendingMessages == old(pendingMessages) && client == Some(c)
          invariant state == old(state) && answered == old(answered) && thrown == old(thrown)
        {
          delivered := delivered + [pendingMessages[i]];
          i := i + 1;
        }
        assert pendingMessages[..i] == pendingMessages;
        pendingMessages := [];
      }
    }

    /** `threw`: the working directory is bad and the call ends in an exception. */
    method ActivateService(launch: Launch) returns (ok: bool, threw: bool)
      modifies this`state
      ensures threw <==> old(state) != STARTING && launch == BadDirectory
      ensures state == Activate(old(state), launch)
      ensures ok <==> !threw && state != START_FAILED
    {
      threw := false;
      if state != STARTING {
        if launch == BadDirectory {
          return false, true;
        }
        state := if launch == Spawned then STARTING else START_FAILED;
      }
      ok := state != START_FAILED;
    }

    method SendMessage(m: M, launch: Launch)
      modifies this
      ensures Model() == Given(old(Model()), m, launch)
    {
      if client.None? {
        var ok, threw := ActivateService(launch);
        if threw {
          thrown := thrown + [m];
        } else if ok {
          pendingMessages := pendingMessages + [m];
        } else {
          answered := answered + [m];
        }
      } else {
        delivered := delivered + [m];
      }
    }
  }

  // ---- Runs ----

  datatype Event<M> = Send(message: M, launch: Launch) | Connect(client: nat)

  function Step<M>(s: Activatable<M>, e: Event<M>): (s': Activatable<M>) {
    match e
    case Send(m, launch) => Given(s, m, launch)
    case Connect(c) => Connected(s, c)
  }

  function Run<M>(events: seq<Event<M>>): (s: Activatable<M>) {
    if events == [] then NewService() else Step(Run(events[..|events| - 1]), events[|events| - 1])
  }

  datatype Fate = Accepted | Answered | Thrown

  /** What becomes of the i-th event, judged when it happens. */
  function FateOf<M>(events: seq<Event<M>>, i: nat): (f: Fate)
    requires i < |events| && events[i].Send?
  {
    var s := Run(events[..i]);
    if s.client.Some? then Accepted
    else if Throws(s.state, events[i].launch) then Thrown
    else if Activate(s.state, events[i].launch) == START_FAILED then Answered
    else Accepted
  }

  /** The messages of a run with a given fate, in the order they were sent. */
  function WithFate<M>(events: seq<Event<M>>, n: nat, f: Fate): (ms: seq<M>)
    requires n <= |events|
  {
    if n == 0 then []
    else WithFate(events, n - 1, f) +
         if events[n - 1].Send? && FateOf(events, n - 1) == f then [events[n - 1].message] else []
  }

  lemma {:induction false} WithFatePrefix<M>(events: seq<Event<M>>, m: nat, n: nat, f: Fate)
    requires n <= m <= |events|
    ensures WithFate(events[..m], n, f) == WithFate(events, n, f)
  {
    if n > 0 {
      WithFatePrefix(events, m, n - 1, f);
      if events[n - 1].Send? {
        assert events[..m][..n - 1] == events[..n - 1];
      }
    }
  }

  /** Messages wait only for a process that is starting and has not connected. */
  ghost predicate Inv<M>(s: Activatable<M>) {
    && (s.pending != [] ==> s.state == STARTING && s.client == None)
    && (s.client == None ==> s.delivered == [])
    && s.state != RUNNING
  }

  lemma {:induction false} StepKeepsInv<M>(s: Activatable<M>, e: Event<M>)
    requires Inv(s)
    ensures Inv(Step(s, e))
    ensures e.Connect? ==> Step(s, e).client.Some? && Step(s, e).pending == []
    ensures s.client.Some? ==> Step(s, e).client == s.client
  {
  }

  lemma {:induction false} RunKeepsInv<M>(events: seq<Event<M>>)
    ensures Inv(Run(events))
  {
    if events != [] {
      RunKeepsInv(events[..|events| - 1]);
      StepKeepsInv(Run(events[..|events| - 1]), events[|events| - 1]);
    }
  }

  lemma {:induction false} ConnectedForGood<M>(events: seq<Event<M>>, i: nat)
    requires i < |events| && events[i].Connect?
    ensures Run(events).client.Some? && Run(events).pending == []
  {
    var n := |events| - 1;
    RunKeepsInv(events);
    RunKeepsInv(events[..n]);
    StepKeepsInv(Run(events[..n]), events[n]);
    if i < n {
      ConnectedForGood(events[..n], i);
    }
  }

  /**
   In every run, the messages accepted are exactly the ones delivered followed by the ones
   waiting, in the order of acceptance and once each; the ones answered with an error and the
   ones that ended in an exception are the others, so no message is both kept and answered.
   Messages wait only while the process is starting.
   */
  lemma {:induction false} AcceptedOnceInOrder<M>(events: seq<Event<M>>)
    ensures var s := Run(events);
            && s.delivered + s.pending == WithFate(events, |events|, Accepted)
            && s.answered == WithFate(events, |events|, Answered)
            && s.thrown == WithFate(events, |events|, Thrown)
            && Inv(s)
  {
    RunKeepsInv(events);
    if events != [] {
      var n := |events| - 1;
      var before := events[..n];
      RunKeepsInv(before);
      AcceptedOnceInOrder(before);
      WithFatePrefix(events, n, n, Accepted);
      WithFatePrefix(events, n, n, Answered);
      WithFatePrefix(events, n, n, Thrown);
      StepAccounts(Run(before), events[n]);
    }
  }

  // ---- From launches and connections alone ----

  /** A client has connected before event `i`. */
  predicate HasConnected<M(!new)>(events: seq<Event<M>>, i: nat)
    requires i <= |events|
  {
    exists j :: 0 <= j < i && events[j].Connect?
  }

  /** One of the first `i` messages came with a launch that works. */
  predicate HasSpawned<M(!new)>(events: seq<Event<M>>, i: nat)
    requires i <= |events|
  {
    exists j :: 0 <= j < i && events[j].Send? && events[j].launch == Spawned
  }

  /** The process is starting exactly if a launch has worked, as long as nobody has connected. */
  lemma {:induction false} StartingExactly<M(!new)>(events: seq<Event<M>>)
    ensures Run(events).client.Some? <==> HasConnected(events, |events|)
    ensures !HasConnected(events, |events|) ==> (Run(events).state == STARTING <==> HasSpawned(events, |events|))
  {
    if events != [] {
      var n := |events| - 1;
      var before := events[..n];
      StartingExactly(before);
      assert forall j | 0 <= j < n :: before[j] == events[j];
      assert HasConnected(events, n + 1) <==> HasConnected(before, n) || events[n].Connect?;
      assert HasSpawned(events, n + 1) <==>
             HasSpawned(before, n) || (events[n].Send? && events[n].launch == Spawned);
    }
  }

  /** The service is provided by the first client that connected, whoever tries later. */
  lemma {:induction false} FirstClientStays<M(!new)>(events: seq<Event<M>>, i: nat)
    requires i < |events| && events[i].Connect? && !HasConnected(events, i)
    ensures Run(events).client == Some(events[i].client)
  {
    var n := |events| - 1;
    var before := events[..n];
    StartingExactly(before);
    assert forall j | 0 <= j < n :: before[j] == events[j];
    if i < n {
      assert !HasConnected(before, i);
      FirstClientStays(before, i);
    } else {
      assert !HasConnected(before, n);
    }
  }

  /**
   What becomes of every message, told from the launches and connections alone. After a client
   has connected it is delivered. Before, it is kept if its own launch or an earlier one works;
   otherwise it ends in an exception if its directory is bad and is answered with an error if
   its process could not be started.
   */
  lemma {:induction false} FateExactly<M(!new)>(events: seq<Event<M>>, i: nat)
    requires i < |events| && events[i].Send?
    ensures var s, t, m := Run(events[..i]), Run(events[..i + 1]), events[i].message;
            if HasConnected(events, i) then t == s.(delivered := s.delivered + [m])
            else if HasSpawned(events, i + 1) then t == s.(state := STARTING, pending := s.pending + [m])
            else if events[i].launch == BadDirectory then t == s.(thrown := s.thrown + [m])
            else events[i].launch == SpawnFailed && t == s.(state := START_FAILED, answered := s.answered + [m])
    ensures FateOf(events, i) ==
            if HasConnected(events, i) || HasSpawned(events, i + 1) then Accepted
            else if events[i].launch == BadDirectory then Thrown
            else Answered
  {
    var before := events[..i];
    StartingExactly(before);
    assert forall j | 0 <= j < i :: before[j] == events[j];
    assert HasConnected(events, i) <==> HasConnected(before, i);
    assert HasSpawned(events, i + 1) <==> HasSpawned(before, i) || events[i].launch == Spawned;
    assert events[..i + 1][..i] == before && events[..i + 1][i] == events[i];
  }

  /** A message is passed on or kept. */
  predicate Accepts<M>(s: Activatable<M>, launch: Launch) {
    s.client.Some? || (!Throws(s.state, launch) && Activate(s.state, launch) != START_FAILED)
  }

  lemma {:induction false} StepAccounts<M>(s: Activatable<M>, e: Event<M>)
    requires Inv(s)
    ensures var t := Step(s, e);
            t.delivered + t.pending ==
            s.delivered + s.pending + if e.Send? && Accepts(s, e.launch) then [e.message] else []
  {
    if e.Send? {
      assert s.client.Some? ==> s.pending == [];
      assert s.delivered + (s.pending + [e.message]) == s.delivered + s.pending + [e.message];
    }
  }
}
