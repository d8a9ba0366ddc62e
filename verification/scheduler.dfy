/**
 The accompanying MIDI listener as a state record with three atomic
 transitions: one run of the self-reposting timer task, and the melody
 note-on and note-off handlers. Clock reads and the oracle are parameters;
 a repost is an output value rather than a message queue.
 */
module Scheduler {
  import opened Notes
  import opened VoiceDiff

  /** Tempo in beats per minute; never changed after construction. */
  const Bpm: int := 100

  /** The state of the listener and its timer task. */
  datatype Listener = Listener(
    tick: int,                    // tick of the current quarter; -1 while idle
    quarterBegin: int,            // clock time (ms) the current quarter began
    nextTickBegin: int,           // clock time (ms) before which a run does nothing
    sounding: Option<seq<Note>>,  // voicing of the last oracle call; None before the first
    lastMelody: Note,             // last melody note with a nonzero key
    melody: Note,                 // current melody note; key 0 while the melody is off
    velocity: int)                // velocity of the last melody note-on

  /** The state after construction: tick 0 (not -1), all times 0, no voicing,
      the melody off and velocity 100. */
  const Initial: Listener := Listener(0, 0, 0, None, MelodyOff, MelodyOff, 100)

  /** What one run of the timer task produced. `repost` is the delay (ms,
      possibly negative) with which the task posts itself again, if it does. */
  datatype RunOutput = RunOutput(next: Listener, cmds: seq<Cmd>, query: Option<Note>, repost: Option<int>)

  /** What a melody handler produced: the event it forwards unchanged and
      whether it posts the timer task at the front of the queue. */
  datatype HandlerOutput = HandlerOutput(next: Listener, forwarded: Cmd, postFront: bool)

  /** Offset (ms) of tick `tick` from the beginning of its quarter: a whole
      beat per tick. The numerator is never negative when the model uses it,
      so Dafny's division agrees with Java's. */
  function TickOffset(tick: int): int
  {
    tick * 60000 / Bpm
  }

  /** The melody note the oracle is asked about: the current one when its key
      is nonzero, otherwise the last one that was. */
  function Remembered(s: Listener): Note
  {
    if s.melody.key != 0 then s.melody else s.lastMelody
  }

  /** Tick 4 ends a quarter; tick -1 means the accompaniment is idle. */
  predicate AtQuarterBoundary(s: Listener)
  {
    s.tick == 4 || s.tick == -1
  }

  /** A run at `now` is due and keeps the clock going: at a quarter boundary
      only while a melody key above 0 is held, otherwise when the tick is not negative. */
  predicate Active(s: Listener, now: int)
  {
    now >= s.nextTickBegin && (if AtQuarterBoundary(s) then s.melody.key > 0 else s.tick >= 0)
  }

  /** A run at `now` is due, at a quarter boundary, with no melody key above 0 held. */
  predicate GoesIdle(s: Listener, now: int)
  {
    now >= s.nextTickBegin && AtQuarterBoundary(s) && s.melody.key <= 0
  }

  /** Note-offs for every note of the remembered voicing, if any. */
  function Release(sounding: Option<seq<Note>>, velocity: int): seq<Cmd>
  {
    match sounding
    case None => []
    case Some(voices) => NoteOffs(voices, velocity)
  }

  /** One run of the timer task at clock time `now`; `later` is the second
      clock read, taken after the oracle call, from which the repost delay is
      measured. `oracle` answers the voicing for a melody note. */
  function Run(s: Listener, now: int, later: int, oracle: Note -> seq<Note>): (r: RunOutput)
    // early: nothing changes except the remembered melody note, and no repost
    ensures now < s.nextTickBegin ==>
      && r.next == s.(lastMelody := Remembered(s))
      && r.cmds == [] && r.query == None && r.repost == None
    // going idle: tick -1, a note-off per remembered voice, the voicing kept, no repost
    ensures GoesIdle(s, now) ==>
      && r.next == s.(tick := -1, lastMelody := s.melody)
      && r.cmds == Release(s.sounding, s.velocity)
      && r.query == None && r.repost == None
    // an active run advances the tick by one (from 0 after a boundary), keeps ticks a beat apart and reposts
    ensures Active(s, now) ==>
      && r.next.tick == (if AtQuarterBoundary(s) then 0 else s.tick) + 1
      && r.next.quarterBegin == (if AtQuarterBoundary(s) then now else s.quarterBegin)
      && r.next.nextTickBegin == r.next.quarterBegin + 600 * r.next.tick
      && r.repost == Some(r.next.nextTickBegin - later)
    ensures r.repost.Some? <==> Active(s, now)
    // the oracle is asked once, about the remembered note, exactly when an active run remembers a nonzero key
    ensures r.query.Some? <==> Active(s, now) && Remembered(s).key != 0
    ensures r.query.Some? ==>
      && r.query.value == Remembered(s)
      && r.next.sounding == Some(oracle(Remembered(s)))
      && r.cmds == Diff(s.sounding, oracle(Remembered(s)), s.velocity)
      && r.next.lastMelody == Note(Remembered(s).key, false)
      && r.next.melody == Note(s.melody.key, false)
    ensures r.query.None? ==> r.next.sounding == s.sounding && r.next.melody == s.melody
    ensures r.query.None? && !GoesIdle(s, now) ==> r.cmds == [] && r.next.lastMelody == Remembered(s)
    ensures !Active(s, now) && !GoesIdle(s, now) ==> r.next.tick == s.tick
    ensures r.next.velocity == s.velocity
    ensures forall c :: c in r.cmds ==> c.channel == AccompanimentChannel && c.velocity == s.velocity
    // the tick stays within -1..4
    ensures -1 <= s.tick <= 4 ==> -1 <= r.next.tick <= 4
  {
    var heard := s.(lastMelody := Remembered(s));
    if now < s.nextTickBegin then
      RunOutput(heard, [], None, None)
    else if AtQuarterBoundary(s) && s.melody.key <= 0 then
      RunOutput(heard.(tick := -1, lastMelody := s.melody), Release(s.sounding, s.velocity), None, None)
    else if !AtQuarterBoundary(s) && s.tick < 0 then
      RunOutput(heard, [], None, None)
    else
      var started := if AtQuarterBoundary(s) then heard.(tick := 0, quarterBegin := now) else heard;
      var tick := started.tick + 1;
      var nextBegin := started.quarterBegin + TickOffset(tick);
      var clocked := started.(tick := tick, nextTickBegin := nextBegin);
      if started.lastMelody.key == 0 then
        RunOutput(clocked, [], None, Some(nextBegin - later))
      else
        var voices := oracle(started.lastMelody);
        RunOutput(
          clocked.(sounding := Some(voices),
                   lastMelody := Note(started.lastMelody.key, false),
                   melody := Note(s.melody.key, false)),
          Diff(s.sounding, voices, s.velocity),
          Some(started.lastMelody),
          Some(nextBegin - later))
  }

  /** A melody note-on: the note becomes the struck melody note, its velocity
      the accompaniment velocity, the timer task is posted at the front of the
      queue and the event is forwarded unchanged. */
  function OnNoteOn(s: Listener, channel: int, key: int, velocity: int): (r: HandlerOutput)
    ensures r.next.melody == Note(key, true) && r.next.velocity == velocity
    ensures r.next.(melody := s.melody, velocity := s.velocity) == s
    ensures r.forwarded == NoteOn(channel, key, velocity) && r.postFront
  {
    HandlerOutput(s.(melody := Note(key, true), velocity := velocity), NoteOn(channel, key, velocity), true)
  }

  /** A melody note-off, whatever its key: the melody goes silent, the velocity
      is kept, nothing is posted and the event is forwarded unchanged. */
  function OnNoteOff(s: Listener, channel: int, key: int, velocity: int): (r: HandlerOutput)
    ensures r.next.melody.key == 0 && r.next.velocity == s.velocity
    ensures r.next.(melody := s.melody) == s
    ensures r.forwarded == NoteOff(channel, key, velocity) && !r.postFront
  {
    HandlerOutput(s.(melody := MelodyOff), NoteOff(channel, key, velocity), false)
  }

  /** Before the first melody note, the constructor's run is active with tick
      0 yet asks the oracle nothing: the initial tick is 0 rather than -1. */
  lemma FirstRunWithoutMelody(now: int, later: int, oracle: Note -> seq<Note>)
    requires now >= 0
    ensures var r := Run(Initial, now, later, oracle);
      r.next.tick == 1 && r.query == None && r.cmds == [] && r.repost == Some(600 - later)
  {
  }
}
