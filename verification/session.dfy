/**
 Whole sessions: the listener driven by an interleaving of timer runs and
 melody events, each step atomic. The oracle is deterministic given the
 queries it has answered so far, so it is a function of the query history.
 Any timer run may be fed in at any time, which covers every order the
 real message queue can produce.
 */
module Session {
  import opened Notes
  import opened Sink
  import opened Scheduler

  /** An atomic step: a timer run with its two clock reads, or a melody event. */
  datatype Input =
    | Fire(now: int, later: int)
    | MelodyNoteOn(channel: int, key: int, velocity: int)
    | MelodyNoteOff(channel: int, key: int, velocity: int)

  /** The listener with what it has done so far: the oracle queries, the
      accompaniment commands, and everything sent downstream. */
  datatype Machine = Machine(listener: Listener, queries: seq<Note>, accompaniment: seq<Cmd>, sent: seq<Cmd>)

  /** The oracle's answer to the last of the queries it has been given. */
  type Oracle = seq<Note> -> seq<Note>

  const Start: Machine := Machine(Initial, [], [], [])

  /** Accompaniment keys still on at the downstream listener. */
  function Outstanding(m: Machine): multiset<int>
  {
    Apply(multiset{}, m.accompaniment)
  }

  function Step(m: Machine, input: Input, oracle: Oracle): (m': Machine)
    // melody events change only the melody state and reach the listener unchanged
    ensures !input.Fire? ==>
      && m'.listener.(melody := m.listener.melody, velocity := m.listener.velocity) == m.listener
      && m'.queries == m.queries && m'.accompaniment == m.accompaniment
      && m'.sent == m.sent + [if input.MelodyNoteOn? then NoteOn(input.channel, input.key, input.velocity)
                              else NoteOff(input.channel, input.key, input.velocity)]
    // a run sends its accompaniment in order and asks the oracle at most once
    ensures input.Fire? ==>
      && |m.queries| <= |m'.queries| <= |m.queries| + 1
      && m'.queries[..|m.queries|] == m.queries
      && |m.accompaniment| <= |m'.accompaniment|
      && m'.accompaniment[..|m.accompaniment|] == m.accompaniment
      && m'.sent == m.sent + m'.accompaniment[|m.accompaniment|..]
    // accompaniment note-ons only come from a run that asked the oracle
    ensures |m'.queries| == |m.queries| ==>
      forall i :: |m.accompaniment| <= i < |m'.accompaniment| ==> m'.accompaniment[i].NoteOff?
  {
    match input
    case Fire(now, later) =>
      var r := Run(m.listener, now, later, q => oracle(m.queries + [q]));
      var asked := if r.query.Some? then [r.query.value] else [];
      assert |m.queries + asked| == |m.queries| ==> r.query.None?;
      Machine(r.next, m.queries + asked, m.accompaniment + r.cmds, m.sent + r.cmds)
    case MelodyNoteOn(channel, key, velocity) =>
      var h := OnNoteOn(m.listener, channel, key, velocity);
      Machine(h.next, m.queries, m.accompaniment, m.sent + [h.forwarded])
    case MelodyNoteOff(channel, key, velocity) =>
      var h := OnNoteOff(m.listener, channel, key, velocity);
      Machine(h.next, m.queries, m.accompaniment, m.sent + [h.forwarded])
  }

  /** The machine after the given steps, in order. */
  function Execute(m: Machine, inputs: seq<Input>, oracle: Oracle): Machine
    decreases |inputs|
  {
    if |inputs| == 0 then m else Execute(Step(m, inputs[0], oracle), inputs[1..], oracle)
  }

  /** What holds in every state a session reaches:
      the tick stays within -1..4; while a quarter runs, the next tick is
      scheduled 600 ms per tick after the quarter began; the outstanding
      accompaniment keys are within the remembered voicing's keys, and none is
      outstanding while idle; the oracle is never asked about key 0. */
  predicate Consistent(m: Machine)
  {
    var s := m.listener;
    && -1 <= s.tick <= 4
    && (s.tick >= 0 ==> s.nextTickBegin == s.quarterBegin + 600 * s.tick)
    && Outstanding(m) <= SoundingBag(s.sounding)
    && (s.tick == -1 ==> Outstanding(m) == multiset{})
    && forall i :: 0 <= i < |m.queries| ==> m.queries[i].key != 0
  }

  lemma StartIsConsistent()
    ensures Consistent(Start)
  {
  }

  /** A run keeps the outstanding accompaniment keys within the remembered
      voicing's keys, and leaves none outstanding when it goes idle. */
  lemma RunKeepsOutstandingWithin(on: multiset<int>, s: Listener, now: int, later: int, oracle: Note -> seq<Note>)
    requires -1 <= s.tick <= 4
    requires on <= SoundingBag(s.sounding)
    requires s.tick == -1 ==> on == multiset{}
    ensures var r := Run(s, now, later, oracle);
      && Apply(on, r.cmds) <= SoundingBag(r.next.sounding)
      && (r.next.tick == -1 ==> Apply(on, r.cmds) == multiset{})
  {
    var r := Run(s, now, later, oracle);
    if r.query.Some? {
      DiffReplacesKeys(on, s.sounding, oracle(Remembered(s)), s.velocity);
    } else if GoesIdle(s, now) {
      match s.sounding
      case None =>
      case Some(voices) =>
        ReleaseSilences(on, voices, s.velocity);
    }
  }

  /** Every step keeps the session consistent. */
  lemma StepKeepsConsistent(m: Machine, input: Input, oracle: Oracle)
    requires Consistent(m)
    ensures Consistent(Step(m, input, oracle))
  {
    if input.Fire? {
      var m' := Step(m, input, oracle);
      var answer := q => oracle(m.queries + [q]);
      var r := Run(m.listener, input.now, input.later, answer);
      assert m'.listener == r.next && m'.accompaniment == m.accompaniment + r.cmds;
      ApplyConcat(multiset{}, m.accompaniment, r.cmds);
      RunKeepsOutstandingWithin(Outstanding(m), m.listener, input.now, input.later, answer);
    }
  }

  /** Consistency holds after any sequence of steps from a consistent state. */
  lemma {:induction false} ExecuteKeepsConsistent(m: Machine, inputs: seq<Input>, oracle: Oracle)
    requires Consistent(m)
    ensures Consistent(Execute(m, inputs, oracle))
    decreases |inputs|
  {
    if |inputs| > 0 {
      StepKeepsConsistent(m, inputs[0], oracle);
      ExecuteKeepsConsistent(Step(m, inputs[0], oracle), inputs[1..], oracle);
    }
  }

  /** No accompaniment note stays on once the listener is idle, whatever the
      melody events, clock readings and oracle answers. */
  lemma IdleLeavesNothingOn(inputs: seq<Input>, oracle: Oracle)
    ensures var m := Execute(Start, inputs, oracle);
      m.listener.tick == -1 ==> Outstanding(m) == multiset{}
    ensures var m := Execute(Start, inputs, oracle);
      -1 <= m.listener.tick <= 4 && Outstanding(m) <= SoundingBag(m.listener.sounding)
  {
    StartIsConsistent();
    ExecuteKeepsConsistent(Start, inputs, oracle);
  }

  /** Running a session one more step. */
  lemma {:induction false} ExecuteSnoc(m: Machine, inputs: seq<Input>, input: Input, oracle: Oracle)
    ensures Execute(m, inputs + [input], oracle) == Step(Execute(m, inputs, oracle), input, oracle)
    decreases |inputs|
  {
    if |inputs| == 0 {
      assert inputs + [input] == [input];
    } else {
      assert (inputs + [input])[1..] == inputs[1..] + [input];
      ExecuteSnoc(Step(m, inputs[0], oracle), inputs[1..], input, oracle);
    }
  }

  /** Running a session in two parts. */
  lemma {:induction false} ExecuteConcat(m: Machine, a: seq<Input>, b: seq<Input>, oracle: Oracle)
    ensures Execute(m, a + b, oracle) == Execute(Execute(m, a, oracle), b, oracle)
    decreases |a|
  {
    if |a| == 0 {
      assert a + b == b;
    } else {
      assert (a + b)[1..] == a[1..] + b;
      ExecuteConcat(Step(m, a[0], oracle), a[1..], b, oracle);
    }
  }
}
