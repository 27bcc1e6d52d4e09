/**
The observation level of a sensor and the state messages that change it. Over any sequence of
messages the level is the image of the initial level under one saturating shift.
*/
module SensorLevel {
  import Sessions

  const OFF := 2
  const ON := 3
  const INCREASE := 4
  const DECREASE := 5
  const LOW := 6
  const DEFAULT := 7
  const HIGH := 8
  const ADVERSARIAL := 9
  const RESET := 10
  const NUM_COMMANDS := 12

  const INT_MAX := 0x7fff_ffff

  /** The commands that are dispatched as state messages. */
  type StateCommand = c: int | OFF <= c <= RESET witness OFF

  datatype State = State(level: int, timeout: int, repeat: int)

  /** Seconds between two runs at a level. */
  function Period(level: int): int {
    if level <= LOW then 3600 else if level == DEFAULT then 300 else if level == HIGH then 10 else 1
  }

  predicate Level(x: int) {
    LOW <= x <= ADVERSARIAL
  }

  class Sensor {
    var state: int
    var timeout: int
    var repeat: int

    ghost function View(): State
      reads this
    {
      State(state, timeout, repeat)
    }

    constructor (timeout: int, repeat: int)
      ensures View() == State(DEFAULT, timeout, repeat)
    {
      this.state, this.timeout, this.repeat := DEFAULT, timeout, repeat;
    }

    method NewState(level: int) returns (reply: int)
      requires Level(level)
      modifies this
      ensures View() == State(level, Period(level), old(repeat)) && reply == level
    {
      state := level;
      timeout := if level == LOW then 3600 else if level == DEFAULT then 300 else if level == HIGH then 10 else 1;
      reply := level;
    }

    /** The reply is an index into the table of command names. */
    method ProcessStateMessage(cmd: StateCommand) returns (reply: int)
      requires Level(state)
      modifies this
      ensures View() == After(old(View()), cmd) && reply == Reply(old(View()), cmd)
    {
      if cmd == OFF {
        repeat := 0;
        reply := OFF;
      } else if cmd == ON {
        repeat := INT_MAX;
        reply := ON;
      } else if cmd == INCREASE {
        if state >= ADVERSARIAL {
          return ADVERSARIAL;
        }
        state := state + 1;
        reply := NewState(state);
      } else if cmd == DECREASE {
        if state <= LOW {
          return LOW;
        }
        state := state - 1;
        reply := NewState(state);
      } else if cmd == RESET {
        reply := NewState(DEFAULT);
      } else {
        reply := NewState(cmd);
      }
    }
  }

  /** The level that a message asks for, given the current one. */
  function Target(level: int, cmd: StateCommand): int {
    match cmd
    case 2 => level
    case 3 => level
    case 4 => if level >= ADVERSARIAL then ADVERSARIAL else level + 1
    case 5 => if level <= LOW then LOW else level - 1
    case 10 => DEFAULT
    case _ => cmd
  }

  /** A message that moves no level leaves the timeout alone; so does one that saturates. */
  function After(s: State, cmd: StateCommand): State {
    if cmd == OFF then s.(repeat := 0)
    else if cmd == ON then s.(repeat := INT_MAX)
    else if (cmd == INCREASE && s.level >= ADVERSARIAL) || (cmd == DECREASE && s.level <= LOW) then s
    else State(Target(s.level, cmd), Period(Target(s.level, cmd)), s.repeat)
  }

  function Reply(s: State, cmd: StateCommand): int {
    if cmd == OFF || cmd == ON then cmd else Target(s.level, cmd)
  }

  function Run(s: State, cmds: seq<StateCommand>): State
    decreases |cmds|
  {
    if cmds == [] then s else Run(After(s, cmds[0]), cmds[1..])
  }

  predicate IsLevelMessage(cmd: StateCommand) {
    cmd != OFF && cmd != ON
  }

  /** Over every sequence of messages after initialisation the level stays in range, the next reply is
      an index of the table and names the level the sensor then has, and the timeout is the level's
      period as soon as one level message has arrived. */
  lemma {:induction false} LevelMachine(s: State, cmds: seq<StateCommand>, next: StateCommand)
    requires Level(s.level) && (s.level == DEFAULT || s.timeout == Period(s.level))
    ensures var t := Run(s, cmds);
      && Level(t.level)
      && 0 <= Reply(t, next) < NUM_COMMANDS
      && (IsLevelMessage(next) ==> Reply(t, next) == After(t, next).level)
      && ((s.timeout == Period(s.level) || exists k :: 0 <= k < |cmds| && IsLevelMessage(cmds[k])) ==>
            t.timeout == Period(t.level))
      && ((forall k :: 0 <= k < |cmds| ==> !IsLevelMessage(cmds[k])) ==> t.level == s.level && t.timeout == s.timeout)
    decreases |cmds|
  {
    if cmds != [] {
      var u := After(s, cmds[0]);
      LevelMachine(u, cmds[1..], next);
      assert forall k :: 1 <= k < |cmds| ==> cmds[k] == cmds[1..][k - 1];
    }
  }

  // ----- The algebra of levels -----

  /** The map x -> min(hi, max(lo, x + shift)). */
  datatype Clamp = Clamp(shift: int, lo: int, hi: int)

  function Apply(f: Clamp, x: int): int {
    var y := x + f.shift;
    if y < f.lo then f.lo else if y > f.hi then f.hi else y
  }

  /** First f, then g. */
  function Then(f: Clamp, g: Clamp): Clamp {
    Clamp(f.shift + g.shift, Apply(g, f.lo), Apply(g, f.hi))
  }

  function Act(cmd: StateCommand): Clamp {
    match cmd
    case 2 => Clamp(0, LOW, ADVERSARIAL)
    case 3 => Clamp(0, LOW, ADVERSARIAL)
    case 4 => Clamp(1, LOW, ADVERSARIAL)
    case 5 => Clamp(-1, LOW, ADVERSARIAL)
    case 10 => Clamp(0, DEFAULT, DEFAULT)
    case _ => Clamp(0, cmd, cmd)
  }

  function ActAll(cmds: seq<StateCommand>): (f: Clamp)
    ensures f.lo <= f.hi
    decreases |cmds|
  {
    if cmds == [] then Clamp(0, LOW, ADVERSARIAL) else Then(Act(cmds[0]), ActAll(cmds[1..]))
  }

  lemma ThenComposes(f: Clamp, g: Clamp, x: int)
    requires f.lo <= f.hi && g.lo <= g.hi
    ensures Apply(Then(f, g), x) == Apply(g, Apply(f, x)) && Then(f, g).lo <= Then(f, g).hi
  {
  }

  lemma ActIsTarget(s: State, cmd: StateCommand)
    requires Level(s.level)
    ensures After(s, cmd).level == Apply(Act(cmd), s.level) && Level(After(s, cmd).level)
    ensures Act(cmd).lo <= Act(cmd).hi
  {
  }

  /** A whole sequence of messages acts on the level as one saturating shift, the composition of the
      shifts of its messages. */
  lemma {:induction false} LevelIsOneClamp(s: State, cmds: seq<StateCommand>)
    requires Level(s.level)
    ensures Run(s, cmds).level == Apply(ActAll(cmds), s.level)
    decreases |cmds|
  {
    if cmds != [] {
      ActIsTarget(s, cmds[0]);
      LevelIsOneClamp(After(s, cmds[0]), cmds[1..]);
      ThenComposes(Act(cmds[0]), ActAll(cmds[1..]), s.level);
    }
  }

  /** Sequences compose: the shift of a concatenation is the composition of the shifts. */
  lemma {:induction false} ActAppend(a: seq<StateCommand>, b: seq<StateCommand>, x: int)
    requires Level(x)
    ensures Apply(ActAll(a + b), x) == Apply(ActAll(b), Apply(ActAll(a), x))
    ensures Level(Apply(ActAll(a), x))
    decreases |a|
  {
    if a == [] {
      assert a + b == b;
    } else {
      assert (a + b)[1..] == a[1..] + b;
      ActAppend(a[1..], b, Apply(Act(a[0]), x));
      ThenComposes(Act(a[0]), ActAll(a[1..]), x);
      ThenComposes(Act(a[0]), ActAll(a[1..] + b), x);
    }
  }

  // ----- The messages, by their words -----

  /** The words of the command table are the commands of the sensor. */
  lemma WordsAreCommands()
    ensures Sessions.IndexFrom("off", 0) == OFF && Sessions.IndexFrom("on", 0) == ON
    ensures Sessions.IndexFrom("increase", 0) == INCREASE && Sessions.IndexFrom("decrease", 0) == DECREASE
    ensures Sessions.IndexFrom("low", 0) == LOW && Sessions.IndexFrom("default", 0) == DEFAULT
    ensures Sessions.IndexFrom("high", 0) == HIGH && Sessions.IndexFrom("adversarial", 0) == ADVERSARIAL
    ensures Sessions.IndexFrom("reset", 0) == RESET
  {
    Sessions.WordsFound(2);
    Sessions.WordsFound(3);
    Sessions.WordsFound(4);
    Sessions.WordsFound(5);
    Sessions.WordsFound(6);
    Sessions.WordsFound(7);
    Sessions.WordsFound(8);
    Sessions.WordsFound(9);
    Sessions.WordsFound(10);
  }

  /** OFF lets the current run be the last, ON sets the largest integer, and neither touches the level. */
  lemma OffAndOn(s: State)
    ensures After(s, OFF) == State(s.level, s.timeout, 0) && Reply(s, OFF) == OFF
    ensures After(s, ON) == State(s.level, s.timeout, 2147483647) && Reply(s, ON) == ON
  {
  }

  /** One hour, five minutes, ten seconds, one second; no level message touches the count of runs. */
  lemma LevelsAre(s: State)
    ensures After(s, LOW) == State(LOW, 3600, s.repeat) && After(s, DEFAULT) == State(DEFAULT, 300, s.repeat)
    ensures After(s, HIGH) == State(HIGH, 10, s.repeat) && After(s, ADVERSARIAL) == State(ADVERSARIAL, 1, s.repeat)
    ensures After(s, RESET) == After(s, DEFAULT)
  {
  }

  /** A step up or down ends at the next level, if there is one. */
  lemma StepsAre(s: State)
    requires Level(s.level)
    ensures After(s, INCREASE) == if s.level == ADVERSARIAL then s else After(s, s.level + 1)
    ensures After(s, DECREASE) == if s.level == LOW then s else After(s, s.level - 1)
  {
  }
}
