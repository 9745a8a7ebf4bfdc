/**
 * The terminal widget's typing effect and the command cycler that drives it.
 *
 * `typeCommand` clears the element and then appends one character of the
 * command per timer callback. The timer callbacks are modelled as discrete
 * ticks; the delays between them are not modelled.
 */
module Typing {
  import opened Common

  /** The five commands the cycler shows, in order. */
  const Commands: seq<string> := [
    "nmap -sS -O target.com",
    "sqlmap -u \"target.com\" --dbs",
    "nikto -h target.com",
    "gobuster dir -u target.com -w wordlist.txt",
    "hydra -l admin -P passwords.txt target.com ssh"
  ]

  /** The command typed once, two seconds after the page has loaded. */
  const StartupCommand := "sqlmap -u \"target.com\" --dbs"

  function Min(a: int, b: int): int {
    if a <= b then a else b
  }

  // ---------------------------------------------------------------------
  // One typing run: the element's text and the state of the run's closure.
  // ---------------------------------------------------------------------

  /** `text` is the element's content, `target` the command being typed,
      `next` the closure's index `i`, and `pending` whether a timer callback
      of the run is scheduled. */
  datatype TypingState = TypingState(text: string, target: string, next: nat, pending: bool)

  /** What the display promises: the text is the first `next` characters of
      the command, and a run whose callbacks have stopped is complete. */
  predicate WellTyped(s: TypingState) {
    && s.next <= |s.target|
    && s.text == s.target[..s.next]
    && (!s.pending ==> s.next == |s.target|)
  }

  /** The inner `type` callback: append the next character and schedule
      another callback, or, once every character is shown, stop. */
  function TypeNext(s: TypingState): TypingState {
    if s.next < |s.target| then
      TypingState(s.text + [s.target[s.next]], s.target, s.next + 1, true)
    else
      s.(pending := false)
  }

  /** `typeCommand`: clear the element, reset the index, run `type` once. */
  function StartTyping(command: string): TypingState {
    TypeNext(TypingState("", command, 0, false))
  }

  /** `k` timer callbacks of one run; a run whose callbacks stopped stays put. */
  function Ticks(s: TypingState, k: nat): TypingState {
    if k == 0 then s
    else
      var s' := Ticks(s, k - 1);
      if s'.pending then TypeNext(s') else s'
  }

  /** Starting a run and every callback of it keep the display well typed,
      so the text is always a prefix of the command being typed. */
  lemma TypingKeepsPrefix(s: TypingState, command: string)
    ensures WellTyped(StartTyping(command))
    ensures WellTyped(s) && s.pending ==> WellTyped(TypeNext(s))
    ensures WellTyped(s) ==> IsPrefix(s.text, s.target)
  {
    if WellTyped(s) && s.pending && s.next < |s.target| {
      assert s.target[..s.next + 1] == s.target[..s.next] + [s.target[s.next]];
    }
  }

  /** The state a lone run reaches after its start and `k` callbacks. */
  function Expected(command: string, k: nat): TypingState {
    var n := Min(k + 1, |command|);
    TypingState(command[..n], command, n, k < |command|)
  }

  /** Starting a run shows its first character, if any. */
  lemma ExpectedStart(command: string)
    ensures StartTyping(command) == Expected(command, 0)
  {
    if |command| > 0 {
      assert command[..1] == [] + [command[0]];
    }
  }

  /** The (k+1)-th callback, when one is pending, moves the expected state
      one step on. */
  lemma ExpectedStep(command: string, k: nat)
    requires k > 0
    ensures (if Expected(command, k - 1).pending then TypeNext(Expected(command, k - 1)) else Expected(command, k - 1))
            == Expected(command, k)
  {
    if k - 1 < |command| && k < |command| {
      assert command[..k + 1] == command[..k] + [command[k]];
    }
  }

  /** After the start and `k` callbacks the text is the first
      min(k + 1, |command|) characters, and a callback is still scheduled
      exactly while fewer than |command| callbacks have run: the run appends
      |command| characters and then stops scheduling. */
  lemma {:induction false} TypedAfterTicks(command: string, k: nat)
    ensures Ticks(StartTyping(command), k).text == command[..Min(k + 1, |command|)]
    ensures Ticks(StartTyping(command), k).target == command
    ensures Ticks(StartTyping(command), k).next == Min(k + 1, |command|)
    ensures Ticks(StartTyping(command), k).pending <==> k < |command|
  {
    TicksFromStart(command, k);
  }

  /** The start and `k` callbacks reach the expected state. */
  lemma {:induction false} TicksFromStart(command: string, k: nat)
    ensures Ticks(StartTyping(command), k) == Expected(command, k)
  {
    if k == 0 {
      ExpectedStart(command);
    } else {
      TicksFromStart(command, k - 1);
      ExpectedStep(command, k);
    }
  }

  /** After as many callbacks as the command has characters the whole
      command is shown and nothing more is scheduled. */
  lemma TypingCompletes(command: string)
    ensures Ticks(StartTyping(command), |command|).text == command
    ensures !Ticks(StartTyping(command), |command|).pending
  {
    TypedAfterTicks(command, |command|);
    assert command[..|command|] == command;
  }

  /** The `.typing` element and the one typing run that writes to it. */
  class Terminal {
    var text: string
    var target: string
    var next: nat
    var pending: bool

    ghost function State(): TypingState
      reads this
    {
      TypingState(text, target, next, pending)
    }

    ghost predicate Valid()
      reads this
    {
      WellTyped(State())
    }

    /** The markup's text counts as a finished run. */
    constructor (markupText: string)
      ensures Valid()
      ensures State() == TypingState(markupText, markupText, |markupText|, false)
    {
      text, target, next, pending := markupText, markupText, |markupText|, false;
    }

    /** The inner `type` callback. */
    method TypeNextChar()
      modifies this
      ensures State() == TypeNext(old(State()))
    {
      if next < |target| {
        text := text + [target[next]];
        next := next + 1;
        pending := true;
      } else {
        pending := false;
      }
    }

    /** `typeCommand` as it is evidently meant to behave, the corrected
        definition of the Finding: the new run replaces the previous one,
        whose pending callback no longer fires. The code as written, which
        leaves that callback scheduled, is `StartAsWritten`. */
    method TypeCommand(command: string)
      requires Valid()
      modifies this
      ensures Valid()
      ensures State() == StartTyping(command)
    {
      text := "";
      target := command;
      next := 0;
      pending := false;
      TypeNextChar();
      TypingKeepsPrefix(State(), command);
    }

    /** A scheduled callback of the current run fires. */
    method Tick()
      requires Valid() && pending
      modifies this
      ensures Valid()
      ensures State() == TypeNext(old(State()))
    {
      TypingKeepsPrefix(State(), target);
      TypeNextChar();
    }
  }

  // ---------------------------------------------------------------------
  // typeCommand as written: a new run does not cancel an older one.
  // ---------------------------------------------------------------------

  /** The closure of one run whose callback is still scheduled: its command
      and its index `i`. */
  datatype Chain = Chain(target: string, next: nat)

  /** The element's text and every run that still has a callback scheduled,
      each writing to the same element, in the order they were scheduled.
      Delays are not modelled: which callback is due next is the index
      given to `FireRun`. */
  datatype Screen = Screen(text: string, chains: seq<Chain>)

  /** The callback still scheduled after a run's `type` call, if any. */
  function Continuation(c: Chain): seq<Chain> {
    if c.next < |c.target| then [Chain(c.target, c.next + 1)] else []
  }

  /** One `type` call of run `c` on the element's current text. */
  function AppendFrom(text: string, c: Chain): string {
    if c.next < |c.target| then text + [c.target[c.next]] else text
  }

  /** `typeCommand` as written: clear the text and start a new run; the
      callbacks of earlier runs stay scheduled, and the new run's callback
      is scheduled after them. */
  function StartAsWritten(sc: Screen, command: string): Screen {
    var c := Chain(command, 0);
    Screen(AppendFrom("", c), sc.chains + Continuation(c))
  }

  /** A restart shows at most the command's first character, and every run
      already scheduled stays scheduled, ahead of the new one. */
  lemma RestartKeepsEarlierRuns(sc: Screen, command: string)
    ensures StartAsWritten(sc, command).text == command[..Min(1, |command|)]
    ensures sc.chains <= StartAsWritten(sc, command).chains
    ensures |StartAsWritten(sc, command).chains| == |sc.chains| + Min(1, |command|)
  {
    if 0 < |command| {
      assert command[..1] == "" + [command[0]];
    }
  }

  /** The scheduled callback of run `idx` fires, whichever run that is: the
      browser fires timers by due time, not by the order the runs started. */
  function FireRun(sc: Screen, idx: nat): Screen
    requires idx < |sc.chains|
  {
    var c := sc.chains[idx];
    Screen(AppendFrom(sc.text, c), sc.chains[..idx] + sc.chains[idx + 1..] + Continuation(c))
  }

  /** Firing a run's callback only appends to the text, at most one
      character; every other run stays scheduled, in order, and the fired
      run's next callback, if any, is scheduled last. */
  lemma FireRunAppendsAndKeepsOthers(sc: Screen, idx: nat)
    requires idx < |sc.chains|
    ensures sc.text <= FireRun(sc, idx).text
    ensures |FireRun(sc, idx).text| <= |sc.text| + 1
    ensures sc.chains[..idx] + sc.chains[idx + 1..] <= FireRun(sc, idx).chains
  {
  }

  /** The callback of the earliest scheduled run fires. */
  function FireFirst(sc: Screen): Screen
    requires 0 < |sc.chains|
  {
    var c := sc.chains[0];
    Screen(AppendFrom(sc.text, c), sc.chains[1..] + Continuation(c))
  }

  /** Firing the earliest scheduled run is `FireRun` at index 0. */
  lemma FireFirstIsFireRun(sc: Screen)
    requires 0 < |sc.chains|
    ensures FireFirst(sc) == FireRun(sc, 0)
  {
    assert sc.chains[..0] + sc.chains[1..] == sc.chains[1..];
  }

  /** `n` callbacks, each of the run scheduled longest ago. This is the
      due-time order only while a single run is scheduled; it serves the
      lone-run lemmas below. Overlapping runs fire through `FireRun` in
      their due-time order (`FireSeq`). */
  function FireOldest(sc: Screen, n: nat): Screen {
    if n == 0 then sc
    else
      var sc' := FireOldest(sc, n - 1);
      if |sc'.chains| > 0 then FireFirst(sc') else sc'
  }

  /** Callbacks firing in any order: `idxs[i]` is the position in the
      schedule of the run whose callback is due next at step i. An index
      past the schedule fires nothing. */
  function FireSeq(sc: Screen, idxs: seq<nat>): Screen
    decreases |idxs|
  {
    if |idxs| == 0 then sc
    else
      var sc' := if idxs[0] < |sc.chains| then FireRun(sc, idxs[0]) else sc;
      FireSeq(sc', idxs[1..])
  }

  /** Whatever order the callbacks fire in, the text only grows. */
  lemma {:induction false} FireSeqOnlyAppends(sc: Screen, idxs: seq<nat>)
    ensures sc.text <= FireSeq(sc, idxs).text
    decreases |idxs|
  {
    if |idxs| > 0 {
      var sc' := if idxs[0] < |sc.chains| then FireRun(sc, idxs[0]) else sc;
      if idxs[0] < |sc.chains| {
        FireRunAppendsAndKeepsOthers(sc, idxs[0]);
      }
      FireSeqOnlyAppends(sc', idxs[1..]);
    }
  }

  /** One callback of a lone run that has shown `k` characters shows the
      next one and schedules its successor. */
  lemma LoneRunStep(command: string, k: nat)
    requires k < |command|
    ensures FireFirst(Screen(command[..k], [Chain(command, k)])) == Screen(command[..k + 1], [Chain(command, k + 1)])
  {
    assert command[..k + 1] == command[..k] + [command[k]];
  }

  /** A lone run behaves as a run of `Terminal`: after the start and `k`
      callbacks it has shown the first k + 1 characters, as
      `TypedAfterTicks` says of `Terminal`, and its next callback is
      scheduled. */
  lemma LoneRunAsWritten(command: string, k: nat)
    requires k < |command|
    ensures FireOldest(StartAsWritten(Screen("", []), command), k) == Screen(command[..k + 1], [Chain(command, k + 1)])
  {
    LoneRunStart(command);
    LoneRunCallbacks(StartAsWritten(Screen("", []), command), command, k);
  }

  /** From a lone run that has shown one character, `k` callbacks show
      k + 1 characters. */
  lemma {:induction false} LoneRunCallbacks(start: Screen, command: string, k: nat)
    requires k < |command|
    requires start == Screen(command[..1], [Chain(command, 1)])
    ensures FireOldest(start, k) == Screen(command[..k + 1], [Chain(command, k + 1)])
  {
    if k > 0 {
      LoneRunCallbacks(start, command, k - 1);
      LoneRunNextCallback(start, command, k);
    }
  }

  /** If `k` callbacks after the start a lone run has shown k characters,
      one more shows the next. */
  lemma LoneRunNextCallback(start: Screen, command: string, k: nat)
    requires 0 < k < |command|
    requires FireOldest(start, k - 1) == Screen(command[..k], [Chain(command, k)])
    ensures FireOldest(start, k) == Screen(command[..k + 1], [Chain(command, k + 1)])
  {
    LoneRunStep(command, k);
  }

  /** Starting a lone run shows its first character and schedules a callback. */
  lemma LoneRunStart(command: string)
    requires 0 < |command|
    ensures StartAsWritten(Screen("", []), command) == Screen(command[..1], [Chain(command, 1)])
  {
  }

  /** A run restarted with the same command while an earlier lone run of
      it has shown `k` characters, 2 <= k, and still has a callback
      scheduled (by `LoneRunAsWritten`, the screen `k - 1` callbacks after
      its start). If the new run's callback is due first it appends the
      command's second character, and the earlier run's callback then
      appends its (k + 1)-th: the text stays a prefix of the command only if
      that character equals the command's third. If the earlier run's
      callback is due first, it follows the new run's first character. */
  lemma RestartMidRunInterleaves(shown: Screen, command: string, k: nat)
    requires 2 <= k < |command|
    requires shown == Screen(command[..k], [Chain(command, k)])
    ensures RestartedRunsFire(StartAsWritten(shown, command), command, k)
  {
    RestartStep(command, k);
    NewRunFiresFirst(command, k);
    EarlierRunFires(command[..2], command, k, Chain(command, 2));
    EarlierRunFires(command[..1], command, k, Chain(command, 1));
  }

  /** What `RestartMidRunInterleaves` states of the screen just after the
      restart: it shows the command's first character, two runs are
      scheduled, and each firing order appends the earlier run's next
      character after the new run's first one or two. */
  predicate RestartedRunsFire(restarted: Screen, command: string, k: nat)
    requires 2 <= k < |command|
  {
    && restarted.text == command[..1]
    && |restarted.chains| == 2
    && FireRun(restarted, 1).text == command[..2]
    && |FireRun(restarted, 1).chains| == 2
    && FireRun(FireRun(restarted, 1), 0).text == command[..2] + [command[k]]
    && FireRun(restarted, 0).text == command[..1] + [command[k]]
  }

  /** Restarting a lone run that has shown `k` characters. */
  lemma RestartStep(command: string, k: nat)
    requires 0 < k < |command|
    ensures StartAsWritten(Screen(command[..k], [Chain(command, k)]), command)
         == Screen(command[..1], [Chain(command, k), Chain(command, 1)])
  {
    assert command[..1] == "" + [command[0]];
  }

  /** The restarted run's callback fires ahead of the earlier run's. */
  lemma NewRunFiresFirst(command: string, k: nat)
    requires 2 <= k < |command|
    ensures FireRun(Screen(command[..1], [Chain(command, k), Chain(command, 1)]), 1)
         == Screen(command[..2], [Chain(command, k), Chain(command, 2)])
  {
    assert command[..2] == command[..1] + [command[1]];
  }

  /** The earlier run's callback, scheduled first, appends its next character. */
  lemma EarlierRunFires(text: string, command: string, k: nat, other: Chain)
    requires k < |command|
    ensures FireRun(Screen(text, [Chain(command, k), other]), 0).text == text + [command[k]]
  {
  }

  /** The startup run types 28 characters, one every 80 ms from the 2 s
      mark: its 26th character lands at 4000 ms and its next callback is due
      at 4080 ms. The first 4 s interval tick restarts the same command at
      4000 ms, which shows "s" and is next due at 4060 ms. Fired in due-time
      order, the new run appends "q" and the startup run then appends its
      27th character: the element shows "sqb". Had only 25 characters been
      shown at the restart, the startup run's callback at 4000 ms would
      follow the new "s" and show "sd". Neither is a prefix of the command
      being typed. */
  lemma OverlappingRunsGarbleText()
    ensures Commands[NextCommand(0)] == StartupCommand && |StartupCommand| == 28
    ensures RestartedRunsFire(StartAsWritten(Screen(StartupCommand[..26], [Chain(StartupCommand, 26)]), StartupCommand), StartupCommand, 26)
    ensures StartupCommand[..2] + [StartupCommand[26]] == "sqb" && !IsPrefix("sqb", StartupCommand)
    ensures RestartedRunsFire(StartAsWritten(Screen(StartupCommand[..25], [Chain(StartupCommand, 25)]), StartupCommand), StartupCommand, 25)
    ensures StartupCommand[..1] + [StartupCommand[25]] == "sd" && !IsPrefix("sd", StartupCommand)
  {
    RestartMidRunInterleaves(Screen(StartupCommand[..26], [Chain(StartupCommand, 26)]), StartupCommand, 26);
    RestartMidRunInterleaves(Screen(StartupCommand[..25], [Chain(StartupCommand, 25)]), StartupCommand, 25);
    assert StartupCommand[..3] == "sql";
    assert StartupCommand[..2] == "sq";
  }

  /** Whatever the interleaving, while the cycler's run has shown between 1
      and 24 characters of the command, any of the startup run's last three
      characters appended after them leaves a text that is not a prefix of
      the command: those characters occur nowhere in positions 1 to 24. */
  lemma StrayCharacterNeverFits(m: nat, j: nat)
    requires 1 <= m < 25 <= j < |StartupCommand|
    ensures !IsPrefix(StartupCommand[..m] + [StartupCommand[j]], StartupCommand)
  {
    StartupCommandLayout();
    assert (StartupCommand[..m] + [StartupCommand[j]])[m] == StartupCommand[j];
  }

  /** The startup command ends in "dbs", and none of those three letters
      occurs in positions 1 to 24. */
  lemma StartupCommandLayout()
    ensures |StartupCommand| == 28
    ensures StartupCommand[25] == 'd' && StartupCommand[26] == 'b' && StartupCommand[27] == 's'
    ensures forall i | 1 <= i < 25 :: StartupCommand[i] !in "dbs"
  {
    var middle := "qlmap -u \"target.com\" --";
    StartupCommandParts();
    assert 'd' !in middle && 'b' !in middle && 's' !in middle;
    forall i | 1 <= i < 25
      ensures StartupCommand[i] !in "dbs"
    {
      assert StartupCommand[i] == middle[i - 1];
    }
  }

  /** The startup command's characters between its first and its last three. */
  lemma StartupCommandParts()
    ensures StartupCommand == "s" + "qlmap -u \"target.com\" --" + "dbs"
  {
  }

  // ---------------------------------------------------------------------
  // The command cycler.
  // ---------------------------------------------------------------------

  /** The cycler's next index: one further along the list, wrapping to 0. */
  function NextCommand(current: nat): (r: nat)
    ensures r < |Commands|
    ensures current + 1 < |Commands| ==> r == current + 1
    ensures current + 1 == |Commands| ==> r == 0
  {
    (current + 1) % |Commands|
  }

  /** The index after `n` interval ticks. */
  function AfterIntervals(current: nat, n: nat): nat {
    if n == 0 then current else NextCommand(AfterIntervals(current, n - 1))
  }

  /** After `n` ticks the index has advanced by `n` modulo five; in
      particular every five ticks the cycle repeats. */
  lemma {:induction false} AfterIntervalsIsModular(current: nat, n: nat)
    requires current < |Commands|
    ensures AfterIntervals(current, n) == (current + n) % |Commands|
  {
    assert |Commands| == 5;
    if n > 0 {
      AfterIntervalsIsModular(current, n - 1);
      WrapStep(current + n - 1);
    }
  }

  /** Stepping the remainder by one is stepping the number by one. */
  lemma WrapStep(m: nat)
    ensures (m % 5 + 1) % 5 == (m + 1) % 5
  {
    var q := m / 5;
    assert m == 5 * q + m % 5;
    if m % 5 + 1 == 5 {
      assert m + 1 == 5 * (q + 1);
    } else {
      assert m + 1 == 5 * q + (m % 5 + 1);
    }
  }

  /** The first interval tick moves the index from 0 to 1, whose command is
      the one already typed at startup: that command is typed twice in a
      row, and the first command of the list waits for the fifth tick. */
  lemma FirstIntervalRetypesStartupCommand()
    ensures Commands[NextCommand(0)] == StartupCommand
    ensures AfterIntervals(0, 5) == 0 && forall n :: 0 < n < 5 ==> AfterIntervals(0, n) != 0
  {
    AfterIntervalsIsModular(0, 5);
    forall n | 0 < n < 5
      ensures AfterIntervals(0, n) != 0
    {
      AfterIntervalsIsModular(0, n);
    }
  }

  /** The interval handler's state: the index into `Commands` and the
      terminal it types into. */
  class CommandCycler {
    var current: nat
    const terminal: Terminal

    ghost predicate Valid()
      reads this, terminal
    {
      current < |Commands| && terminal.Valid()
    }

    constructor (term: Terminal)
      requires term.Valid()
      ensures Valid()
      ensures current == 0 && terminal == term
    {
      current := 0;
      terminal := term;
    }

    /** Every four seconds: advance the index and type its command. */
    method IntervalTick()
      requires Valid()
      modifies this, terminal
      ensures Valid()
      ensures current == NextCommand(old(current))
      ensures terminal.State() == StartTyping(Commands[current])
    {
      current := NextCommand(current);
      terminal.TypeCommand(Commands[current]);
    }
  }
}
