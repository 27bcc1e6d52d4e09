/**
Starting and stopping probes on command. A probe says it is enabled; the system knows whether its
callback is registered; the claim is that the two agree.
*/
module ProbeControl {

  datatype Kind = ImageLoad | RegistryModification | ProcessCreate | ThreadCreate

  datatype Command = EnableProbe | DisableProbe | Other

  datatype Status = Success | NotFound

  /** `hooked`: the probe's callback is registered with the system. */
  datatype State = State(enabled: bool, hooked: bool)

  /** The system accepts or refuses, as it likes, each call that registers or removes a callback; but
      a callback that is not registered cannot be removed. */
  function AfterStart(kind: Kind, atStart: bool, s: State, accepts: bool): State {
    if s.enabled || !atStart then (if kind == ProcessCreate then State(false, s.hooked) else s)
    else if accepts then State(true, true)
    else State(false, s.hooked)
  }

  function AfterStop(kind: Kind, s: State, accepts: bool): State {
    var removed := s.hooked && accepts;
    var hooked := s.hooked && !accepts;
    match kind
    case ImageLoad => State(s.enabled && !removed, hooked)
    case RegistryModification => State(s.enabled && !removed, hooked)
    case ProcessCreate => State(false, hooked)
    case ThreadCreate => State(removed, hooked)
  }

  function AfterCommand(kind: Kind, atStart: bool, s: State, c: Command, accepts: bool): State {
    if c == DisableProbe && s.enabled then AfterStop(kind, s, accepts)
    else if c == EnableProbe && !s.enabled && atStart then AfterStart(kind, atStart, s, accepts)
    else s
  }

  class Probe {
    const id: int
    const kind: Kind
    const enabledAtStart: bool
    var enabled: bool
    var hooked: bool

    function View(): State
      reads this
    {
      State(enabled, hooked)
    }

    constructor (id: int, kind: Kind, enabledAtStart: bool)
      ensures this.id == id && this.kind == kind && this.enabledAtStart == enabledAtStart
      ensures View() == State(false, false)
    {
      this.id, this.kind, this.enabledAtStart := id, kind, enabledAtStart;
      enabled, hooked := false, false;
    }

    /** The part of `Start` that all probes share. */
    method BaseStart() returns (success: bool)
      ensures success <==> !enabled && enabledAtStart
    {
      if enabled {
        return false;
      }
      success := enabledAtStart;
    }

    /** The system's registration call. */
    method AddCallback(accepts: bool) returns (success: bool)
      modifies this`hooked
      ensures success == accepts && hooked == (old(hooked) || accepts)
    {
      hooked := hooked || accepts;
      success := accepts;
    }

    method RemoveCallback(accepts: bool) returns (success: bool)
      modifies this`hooked
      ensures success == (old(hooked) && accepts) && hooked == (old(hooked) && !accepts)
    {
      success := hooked && accepts;
      hooked := hooked && !accepts;
    }

    method Start(accepts: bool) returns (success: bool)
      modifies this`enabled, this`hooked
      ensures View() == AfterStart(kind, enabledAtStart, old(View()), accepts)
      ensures success <==> (if kind == ThreadCreate then enabled else !old(enabled) && enabledAtStart && accepts)
    {
      var status := BaseStart();
      match kind
      case ImageLoad | RegistryModification =>
        if status {
          status := AddCallback(accepts);
          if status {
            enabled := true;
          }
        }
        success := status;
      case ProcessCreate =>
        if status {
          status := AddCallback(accepts);
        }
        enabled := status;
        success := enabled;
      case ThreadCreate =>
        if status {
          status := AddCallback(accepts);
          enabled := status;
        }
        success := enabled;
    }

    /** The part of `Stop` that all probes share never fails, so it is not a branch here. */
    method Stop(accepts: bool) returns (success: bool)
      modifies this`enabled, this`hooked
      ensures View() == AfterStop(kind, old(View()), accepts)
      ensures success <==> old(hooked) && accepts
    {
      match kind
      case ImageLoad | RegistryModification =>
        success := RemoveCallback(accepts);
        if success {
          enabled := false;
        }
      case ProcessCreate =>
        enabled := false;
        success := RemoveCallback(accepts);
      case ThreadCreate =>
        var status := RemoveCallback(accepts);
        if !status {
          enabled := false;
        } else {
          enabled := true;
        }
        success := enabled;
    }

    method ChangeProbeState(c: Command, accepts: bool) returns (success: bool)
      modifies this`enabled, this`hooked
      ensures View() == AfterCommand(kind, enabledAtStart, old(View()), c, accepts)
      ensures success ==> View() != old(View())
    {
      success := false;
      if c == DisableProbe && enabled {
        success := Stop(accepts);
      } else if c == EnableProbe && !enabled && enabledAtStart {
        success := Start(accepts);
      }
    }
  }

  // ----- The command handler -----

  const ZEROGUID := 0

  ghost predicate Listed(probes: seq<Probe>) {
    forall j, k :: 0 <= j < k < |probes| ==> probes[j] != probes[k]
  }

  /** A command message; `accepts[k]` is the system's answer to the call for the k-th probe. */
  datatype Message = Message(id: int, command: Command, accepts: seq<bool>)

  datatype Info = Info(id: int, kind: Kind, atStart: bool)

  function FindById(infos: seq<Info>, id: int): (k: nat)
    ensures k <= |infos| && (k < |infos| ==> infos[k].id == id)
    ensures forall j :: 0 <= j < k ==> infos[j].id != id
  {
    if infos == [] || infos[0].id == id then 0 else 1 + FindById(infos[1..], id)
  }

  ghost function Infos(probes: seq<Probe>): (r: seq<Info>)
    ensures |r| == |probes|
  {
    seq(|probes|, k requires 0 <= k < |probes| => Info(probes[k].id, probes[k].kind, probes[k].enabledAtStart))
  }

  /** One command as one probe sees it: whether it is addressed, and how the system answers. */
  datatype Event = Event(command: Command, addressed: bool, accepts: bool)

  function Do(kind: Kind, atStart: bool, s: State, e: Event): State {
    if e.addressed then AfterCommand(kind, atStart, s, e.command, e.accepts) else s
  }

  /** What the message is to the k-th probe. */
  function AsSeenBy(infos: seq<Info>, k: nat, m: Message): Event {
    Event(m.command, m.id == ZEROGUID || k == FindById(infos, m.id), k < |m.accepts| && m.accepts[k])
  }

  /** Zero addresses all probes, another id the first that has it. */
  method OnProtectionStateChange(probes: seq<Probe>, m: Message) returns (status: Status)
    requires Listed(probes) && |m.accepts| == |probes|
    modifies probes
    ensures forall k :: 0 <= k < |probes| ==>
      probes[k].View() == Do(probes[k].kind, probes[k].enabledAtStart, old(probes[k].View()), AsSeenBy(Infos(probes), k, m))
    ensures status == NotFound <==> m.id != ZEROGUID && forall k :: 0 <= k < |probes| ==> probes[k].id != m.id
  {
    ghost var infos := Infos(probes);
    if m.id == ZEROGUID {
      for k := 0 to |probes|
        invariant forall j :: 0 <= j < k ==>
          probes[j].View() == Do(probes[j].kind, probes[j].enabledAtStart, old(probes[j].View()), AsSeenBy(infos, j, m))
        invariant forall j :: k <= j < |probes| ==> probes[j].View() == old(probes[j].View())
      {
        var _ := probes[k].ChangeProbeState(m.command, m.accepts[k]);
      }
      return Success;
    }
    var k := 0;
    while k < |probes| && probes[k].id != m.id
      invariant k <= |probes| && forall j :: 0 <= j < k ==> probes[j].id != m.id
    {
      k := k + 1;
    }
    assert forall j :: 0 <= j < k ==> infos[j].id != m.id;
    assert k < |probes| ==> infos[k].id == m.id;
    assert FindById(infos, m.id) == k;
    if k == |probes| {
      return NotFound;
    }
    var _ := probes[k].ChangeProbeState(m.command, m.accepts[k]);
    status := Success;
  }

  // ----- Every sequence of commands -----

  function Run(kind: Kind, atStart: bool, s: State, events: seq<Event>): State
    decreases |events|
  {
    if events == [] then s else Run(kind, atStart, Do(kind, atStart, s, events[0]), events[1..])
  }

  predicate Agrees(s: State) {
    s.enabled <==> s.hooked
  }

  /** What each kind of probe keeps. */
  predicate Kept(kind: Kind, s: State) {
    match kind
    case ImageLoad => Agrees(s)
    case RegistryModification => Agrees(s)
    case ProcessCreate => s.enabled ==> s.hooked
    case ThreadCreate => true
  }

  lemma {:induction false} EnabledMeansHooked(kind: Kind, atStart: bool, s: State, events: seq<Event>)
    requires Kept(kind, s)
    ensures Kept(kind, Run(kind, atStart, s, events))
    decreases |events|
  {
    if events != [] {
      EnabledMeansHooked(kind, atStart, Do(kind, atStart, s, events[0]), events[1..]);
    }
  }

  /** All listed probes under a sequence of command messages. */
  function RunAll(infos: seq<Info>, states: seq<State>, messages: seq<Message>): (r: seq<State>)
    requires |states| == |infos|
    ensures |r| == |infos|
    decreases |messages|
  {
    if messages == [] then states
    else
      var next := seq(|infos|, k requires 0 <= k < |infos| =>
        Do(infos[k].kind, infos[k].atStart, states[k], AsSeenBy(infos, k, messages[0])));
      RunAll(infos, next, messages[1..])
  }

  function AllAsSeenBy(infos: seq<Info>, k: nat, messages: seq<Message>): seq<Event> {
    if messages == [] then [] else [AsSeenBy(infos, k, messages[0])] + AllAsSeenBy(infos, k, messages[1..])
  }

  /** Each probe runs on what it sees, whatever happens to the others. */
  lemma {:induction false} RunAllIsEachRun(infos: seq<Info>, states: seq<State>, messages: seq<Message>, k: nat)
    requires |states| == |infos| && k < |infos|
    ensures RunAll(infos, states, messages)[k] ==
      Run(infos[k].kind, infos[k].atStart, states[k], AllAsSeenBy(infos, k, messages))
    decreases |messages|
  {
    if messages != [] {
      var next := seq(|infos|, j requires 0 <= j < |infos| =>
        Do(infos[j].kind, infos[j].atStart, states[j], AsSeenBy(infos, j, messages[0])));
      RunAllIsEachRun(infos, next, messages[1..], k);
      assert AllAsSeenBy(infos, k, messages)[1..] == AllAsSeenBy(infos, k, messages[1..]);
    }
  }

  /** From the start of the driver, over every sequence of messages to one probe or to all and all
      failures of the system's calls, an enabled probe is hooked, and for ImageLoad and
      RegistryModification a hooked one is enabled. */
  lemma AllEnabledMeansHooked(infos: seq<Info>, messages: seq<Message>, k: nat)
    requires k < |infos|
    ensures var s := RunAll(infos, seq(|infos|, _ => State(false, false)), messages)[k];
      && (infos[k].kind != ThreadCreate && s.enabled ==> s.hooked)
      && (infos[k].kind.ImageLoad? || infos[k].kind.RegistryModification? ==> Agrees(s))
  {
    var states := seq(|infos|, _ => State(false, false));
    RunAllIsEachRun(infos, states, messages, k);
    EnabledMeansHooked(infos[k].kind, infos[k].atStart, states[k], AllAsSeenBy(infos, k, messages));
  }

  /** The commands on which a probe can come to disagree with the system. */
  predicate Breaks(kind: Kind, s: State, e: Event) {
    && e.addressed && e.command == DisableProbe && s.enabled
    && (kind == ThreadCreate || (kind == ProcessCreate && !e.accepts))
  }

  /** From agreement, a command keeps agreement except when it disables an enabled ThreadCreate probe,
      whatever the system answers, or an enabled ProcessCreate probe whose removal fails. */
  lemma AgreementKeptIff(kind: Kind, atStart: bool, s: State, e: Event)
    requires Agrees(s)
    ensures Agrees(Do(kind, atStart, s, e)) <==> !Breaks(kind, s, e)
  {
  }

  /** Whether some command of the sequence disables an addressed probe while it is enabled, in one of
      the ways that break agreement. */
  predicate EverBreaks(kind: Kind, atStart: bool, s: State, events: seq<Event>)
    decreases |events|
  {
    events != [] &&
    (Breaks(kind, s, events[0]) || EverBreaks(kind, atStart, Do(kind, atStart, s, events[0]), events[1..]))
  }

  /** Agreement at every point of a run. */
  predicate AlwaysAgrees(kind: Kind, atStart: bool, s: State, events: seq<Event>)
    decreases |events|
  {
    Agrees(s) && (events == [] || AlwaysAgrees(kind, atStart, Do(kind, atStart, s, events[0]), events[1..]))
  }

  lemma {:induction false} AlwaysAgreesIff(kind: Kind, atStart: bool, s: State, events: seq<Event>)
    requires Agrees(s)
    ensures AlwaysAgrees(kind, atStart, s, events) <==> !EverBreaks(kind, atStart, s, events)
    decreases |events|
  {
    if events != [] {
      var t := Do(kind, atStart, s, events[0]);
      AgreementKeptIff(kind, atStart, s, events[0]);
      if Agrees(t) {
        AlwaysAgreesIff(kind, atStart, t, events[1..]);
      }
    }
  }

  /** The ThreadCreate probe after an accepted disable command says it is enabled but is not hooked; an
      enable command then does nothing, and only a second disable clears the flag. */
  lemma ThreadCreateTakesTwoStops(accepts: bool)
    ensures AfterCommand(ThreadCreate, true, State(true, true), DisableProbe, true) == State(true, false)
    ensures AfterCommand(ThreadCreate, true, State(true, false), EnableProbe, accepts) == State(true, false)
    ensures AfterCommand(ThreadCreate, true, State(true, false), DisableProbe, accepts) == State(false, false)
  {
  }

  // ----- Commands have their effect -----

  /** An enable command that the system accepts hooks and enables a disabled probe that is marked for start;
      one that it refuses, or for a probe not marked, does not enable it. */
  lemma EnableIs(kind: Kind, s: State, accepts: bool)
    requires !s.enabled
    ensures AfterCommand(kind, true, s, EnableProbe, accepts) == State(accepts, s.hooked || accepts)
    ensures AfterCommand(kind, false, s, EnableProbe, accepts) == s
  {
  }

  /** A disable command for a probe that is enabled and hooked, and for one that is not enabled. */
  lemma DisableIs(kind: Kind, atStart: bool, s: State, accepts: bool)
    ensures s == State(true, true) ==>
      AfterCommand(kind, atStart, s, DisableProbe, accepts) ==
        match kind
        case ImageLoad => State(!accepts, !accepts)
        case RegistryModification => State(!accepts, !accepts)
        case ProcessCreate => State(false, !accepts)
        case ThreadCreate => State(accepts, !accepts)
    ensures !s.enabled ==> AfterCommand(kind, atStart, s, DisableProbe, accepts) == s
  {
  }

  /** Other commands, and an enable command for an enabled probe, do nothing. */
  lemma OthersAreIdle(kind: Kind, atStart: bool, s: State, accepts: bool)
    ensures AfterCommand(kind, atStart, s, Other, accepts) == s
    ensures s.enabled ==> AfterCommand(kind, atStart, s, EnableProbe, accepts) == s
  {
  }

  /** A message reaches a probe if and only if its id is zero, or is the probe's and no earlier one's. */
  lemma ReachesIff(infos: seq<Info>, k: nat, m: Message)
    requires k < |infos| && |m.accepts| == |infos|
    ensures var e := AsSeenBy(infos, k, m);
      && (e.addressed <==> m.id == 0 || (infos[k].id == m.id && forall j :: 0 <= j < k ==> infos[j].id != m.id))
      && e.command == m.command && e.accepts == m.accepts[k]
  {
  }

  /** From driver start, one accepted enable message to all probes enables and hooks exactly those that are
      marked for start. */
  lemma EnableAll(infos: seq<Info>, k: nat)
    requires k < |infos|
    ensures var m := Message(0, EnableProbe, seq(|infos|, _ => true));
      RunAll(infos, seq(|infos|, _ => State(false, false)), [m])[k] == State(infos[k].atStart, infos[k].atStart)
  {
    var m := Message(0, EnableProbe, seq(|infos|, _ => true));
    ReachesIff(infos, k, m);
    assert [m][1..] == [];
    EnableIs(infos[k].kind, State(false, false), true);
  }
}
