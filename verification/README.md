# Accompanying MIDI listener — Dafny model

This project models the accompaniment engine of the AI piano accompanist app,
the class `AccompanyingMidiListener`. The engine is a MIDI listener proxy. It
forwards every melody note-on and note-off unchanged to the downstream
listener. A self-reposting timer task asks a voicing oracle (a TensorFlow
network in the app) for the accompanying voices once per tick. It sends
channel-0 note-off and note-on commands for the voices that change.

The model has five modules:

- `Notes` (`notes.dfy`): the `Note(key, strike)` record, the MIDI commands
  `NoteOn`/`NoteOff` and the melody-off sentinel `Note(0, true)`.
- `VoiceDiff` (`voice_diff.dfy`): the voice diff as a pure function,
  `Diff(prev, next, velocity)`. `prev` is `None` before the first oracle call.
  `ChangedVoices` is an independent description of which voices the diff plays
  again, and lemmas tie `Diff` to it command by command.
- `Sink` (`sink.dfy`): what the downstream listener holds on, as a multiset of
  keys. A note-on adds its key; a note-off removes one occurrence and is
  ignored for a key that is not on. With this reading, `Diff` turns exactly the
  keys of the previous voicing into exactly the keys of the new one.
- `Scheduler` (`scheduler.dfy`): the listener's state record and its three
  atomic transitions.
  - `Run` is one execution of the timer task. Its two clock reads and the
    oracle are parameters. It returns the new state, the commands, the oracle
    query and the repost delay.
  - `OnNoteOn` and `OnNoteOff` are the melody handlers.
- `Session` (`session.dfy`): sessions as any interleaving of timer runs and
  melody events.
  - Any run may fire at any time, which covers every order the Android message
    queue can produce, including the extra run that a note-on posts at the
    front of the queue.
  - The oracle is a function of its whole query history, so it can stand for
    a stateful network.
  - `Consistent` is the invariant that every reachable state satisfies.
- `Scenarios` (`scenarios.dfy`): concrete sessions that show how the engine
  behaves at the end of a quarter.

The code is modelled as written:

- Ticks last `60000 / bpm` = 600 ms at 100 bpm, a whole beat. Ticks 1..4 of a
  "quarter" therefore span four beats.
- The initial tick is 0, not -1. The first run before any melody note is
  active and keeps the clock going without asking the oracle.
- The first quarter is measured from clock time 0. With an epoch-millisecond
  clock, every repost delay of that quarter is hugely negative, so its ticks
  run back to back.
- Key 0 is passed through to the downstream listener in both note-ons and
  note-offs.
- Going idle sends a note-off for every remembered voice, but keeps the
  remembered voicing. Two consequences follow, and `Scenarios` proves each one
  on a concrete session:
  - Every later idle run releases the voicing again, so one note-on can be
    followed by two note-offs of the same key.
  - The next quarter's first voicing is diffed against the released voicing.
    A voice that sustains the same key unstruck is then never switched back
    on, and the remembered voicing no longer matches what is sounding.
- With the saturating reading of the downstream listener, no accompaniment
  note stays on once the engine is idle (`Session.IdleLeavesNothingOn`).
  Per-key note-on and note-off counts need not balance, however.

## Model

All source paths are in `app/src/main/java/com/asoehlke/accompanist/`.

| member | source | states |
|---|---|---|
| VoiceDiff.NoteOns | app/src/main/java/com/asoehlke/accompanist/AccompanyingMidiListener.java:95-99 | one note-on per voice, at the same index, channel 0, the current velocity, the key unfiltered |
| VoiceDiff.NoteOffs | app/src/main/java/com/asoehlke/accompanist/AccompanyingMidiListener.java:102-104 | one note-off per voice, at the same index, channel 0, the current velocity |
| VoiceDiff.Pairwise | app/src/main/java/com/asoehlke/accompanist/AccompanyingMidiListener.java:108-126 | for voicings of the same length, the diff is empty exactly when no voice is struck or changes key; every command is on channel 0 with the current velocity |
| VoiceDiff.ChangedVoices | app/src/main/java/com/asoehlke/accompanist/AccompanyingMidiListener.java:110-126 | the played-again voice indices: in range, strictly ascending, and containing exactly the voices that are struck or change key |
| VoiceDiff.PairwiseFollowsChangedVoices | app/src/main/java/com/asoehlke/accompanist/AccompanyingMidiListener.java:110-126 | the pairwise diff is, in ascending voice order, a note-off of the old key directly followed by a note-on of the new key for each played-again voice, and nothing else |
| VoiceDiff.Diff | app/src/main/java/com/asoehlke/accompanist/AccompanyingMidiListener.java:95-127 | no previous voicing: note-ons of every new voice in order and no note-off; a length change: note-offs of every old voice, then note-ons of every new voice; the same length: silent exactly when every voice sustains its key; always channel 0 and the current velocity |
| VoiceDiff.DiffSameShape | app/src/main/java/com/asoehlke/accompanist/AccompanyingMidiListener.java:108-126 | for the same length, the diff equals the off/on pairs of the played-again voices, in voice order |
| VoiceDiff.VoiceReplayedIffRearticulated | app/src/main/java/com/asoehlke/accompanist/AccompanyingMidiListener.java:114-124 | a voice is touched exactly when it is struck or its key changes, and then as an off of the old key immediately followed by an on of the new key, even when the two keys are equal |
| VoiceDiff.SustainIsSilent | app/src/main/java/com/asoehlke/accompanist/AccompanyingMidiListener.java:110-126 | an identical, all-unstruck voicing yields no command |
| Sink.NoteOnsAddKeys | app/src/main/java/com/asoehlke/accompanist/AccompanyingMidiListener.java:95-99 | striking a voicing adds exactly its keys to what is on |
| Sink.NoteOffsRemoveKeys | app/src/main/java/com/asoehlke/accompanist/AccompanyingMidiListener.java:102-104 | releasing a voicing removes its keys: what was within the voicing's keys plus a rest ends within the rest, and exactly the rest when all of them were on |
| Sink.VoiceEditReplacesKey | app/src/main/java/com/asoehlke/accompanist/AccompanyingMidiListener.java:114-124 | one voice's off/on pair replaces its old key by its new key |
| Sink.PairwiseReplacesKeys | app/src/main/java/com/asoehlke/accompanist/AccompanyingMidiListener.java:108-126 | the same-length diff replaces the old voicing's keys by the new voicing's keys |
| Sink.DiffReplacesKeys | app/src/main/java/com/asoehlke/accompanist/AccompanyingMidiListener.java:95-128 | in every branch, keys on within the previous voicing's keys end within the new voicing's keys, and exactly the previous keys become exactly the new keys |
| Sink.ReleaseSilences | app/src/main/java/com/asoehlke/accompanist/AccompanyingMidiListener.java:84-86 | the idle release leaves nothing on when what is on lies within the remembered voicing's keys |
| Scheduler.Run | app/src/main/java/com/asoehlke/accompanist/AccompanyingMidiListener.java:62-146 | an early run only records the last nonzero melody note and does not repost. At a boundary with no positive melody key, the tick becomes -1, every remembered voice gets a note-off, the voicing is kept and nothing is reposted. An active run advances the tick by one (from 0 after a boundary), sets the next tick to quarter begin + 600 ms per tick and reposts with the delay measured from the second clock read. The oracle is asked exactly when an active run remembers a nonzero key, and then about that note; the voicing becomes its answer, the commands are the diff, and both melody notes lose their strike. A run that neither asks nor goes idle sends nothing and keeps the voicing and the melody note, and its last melody note is the remembered one. Commands use channel 0 and the current velocity, the velocity is unchanged, and the tick stays in -1..4 |
| Scheduler.OnNoteOn | app/src/main/java/com/asoehlke/accompanist/AccompanyingMidiListener.java:171-178 | the melody note becomes the struck note and its velocity the accompaniment velocity; nothing else changes; the event is forwarded unchanged and the timer task is posted at the front of the queue |
| Scheduler.OnNoteOff | app/src/main/java/com/asoehlke/accompanist/AccompanyingMidiListener.java:164-169 | the melody goes to key 0 whatever key is released; velocity and everything else are unchanged; the event is forwarded and nothing is posted |
| Scheduler.FirstRunWithoutMelody | app/src/main/java/com/asoehlke/accompanist/AccompanyingMidiListener.java:51-143 | from the initial tick 0 with no melody yet, the first run moves to tick 1, sends nothing, asks nothing and reposts with delay 600 minus the second clock read |
| Session.Step | app/src/main/java/com/asoehlke/accompanist/AccompanyingMidiListener.java:62-178 | melody events change only the melody note and velocity and only forward their event; a timer run asks the oracle at most once, only appends to the accompaniment and sends it downstream in order; a run that asks nothing sends only note-offs |
| Session.StartIsConsistent | app/src/main/java/com/asoehlke/accompanist/AccompanyingMidiListener.java:33-59 | the state after construction satisfies the session invariant |
| Session.RunKeepsOutstandingWithin | app/src/main/java/com/asoehlke/accompanist/AccompanyingMidiListener.java:84-128 | a run keeps the keys on within the remembered voicing's keys, and leaves none on when it goes idle |
| Session.StepKeepsConsistent | app/src/main/java/com/asoehlke/accompanist/AccompanyingMidiListener.java:62-178 | every timer run and melody event preserves the invariant: tick in -1..4, the next tick 600 ms per tick after the quarter began, keys on within the remembered voicing's keys and none on while idle, and the oracle is never asked about key 0 |
| Session.ExecuteKeepsConsistent | app/src/main/java/com/asoehlke/accompanist/AccompanyingMidiListener.java:62-178 | the invariant holds after any interleaving of runs and melody events |
| Session.IdleLeavesNothingOn | app/src/main/java/com/asoehlke/accompanist/AccompanyingMidiListener.java:79-87 | in every reachable state, no accompaniment key is on while idle, the tick is in -1..4, and the keys on lie within the remembered voicing's keys |
| Scenarios.FirstTick | app/src/main/java/com/asoehlke/accompanist/AccompanyingMidiListener.java:90-99 | the first tick after a melody note-on asks the oracle about the struck note 60, strikes the oracle's voice and schedules the next tick 600 ms later |
| Scenarios.SustainedTick | app/src/main/java/com/asoehlke/accompanist/AccompanyingMidiListener.java:65-67 | after a melody note-off mid-quarter, the remaining ticks still ask about the remembered note 60, now unstruck, and a sustained voice sends nothing |
| Scenarios.IdleTick | app/src/main/java/com/asoehlke/accompanist/AccompanyingMidiListener.java:79-87 | at a boundary with the melody off, the run goes idle and releases the kept voicing without asking the oracle |
| Scenarios.QuarterThenIdleReaches | app/src/main/java/com/asoehlke/accompanist/AccompanyingMidiListener.java:62-146 | a melody note held for one tick completes its quarter with four oracle calls, then goes idle with one note-on and one note-off of key 64, keeping the voicing |
| Scenarios.ResumeTick | app/src/main/java/com/asoehlke/accompanist/AccompanyingMidiListener.java:71-78 | a melody note seen while idle starts a new quarter at the run's time, and a voice that sustains the kept key sends nothing |
| Scenarios.ShortNoteWhileIdle | app/src/main/java/com/asoehlke/accompanist/AccompanyingMidiListener.java:164-178 | a melody note released before the timer task runs leaves the melody off, so the idle branch runs and releases the kept voicing again |
| Scenarios.RepeatedIdleReaches | app/src/main/java/com/asoehlke/accompanist/AccompanyingMidiListener.java:79-87 | after the idle pass and a short melody note, the session is idle again with accompaniment on 64, off 64, off 64 |
| Scenarios.RepeatedIdleReleasesAgain | app/src/main/java/com/asoehlke/accompanist/AccompanyingMidiListener.java:84-86 | in that session key 64 gets one note-on and two note-offs |
| Scenarios.NoteOnWhileIdle | app/src/main/java/com/asoehlke/accompanist/AccompanyingMidiListener.java:171-178 | a melody note-on while idle, followed by a run, starts tick 1 of a new quarter and sends nothing for the sustained voice |
| Scenarios.StaleVoicingStaysSilent | app/src/main/java/com/asoehlke/accompanist/AccompanyingMidiListener.java:84-128 | after idle and a new melody note, the engine is on tick 1 with key 64 remembered as sounding, yet no accompaniment key is on |

## Left out

- The TensorFlow network behind the oracle is not part of this model. This covers its session setup, feeding, fetching and the floating-point decoding of its output. The oracle is an arbitrary function of its query history, and the fixed voice count of three is not assumed. Only the `Note` record (TensorFlowAccompanist.java:36-60) is modelled.
- The Android `Handler` queue is not modelled. A repost is an output value, and posting the task at the front of the queue is a flag. A session may fire the timer task at any time, which covers every queue order.
- `System.currentTimeMillis` is not modelled. Both clock reads of a run are parameters.
- `Log.i` calls are left out. They have no effect on the state.
- The race between the melody handlers and the timer task is not modelled. Every handler call and every run is one atomic step.
- The downstream `MidiListener` and the construction of the network are not part of this model. The saturating multiset reading in `Sink` is an assumption about the downstream listener.
- Scheduler.Run: does not model Java's 32-bit `int` or 64-bit `long` wrap-around of clock values, tick offsets or repost delays. Integers are unbounded, and the tick is proved to stay in -1..4, so the offset `tick * 60000 / bpm` is at most 2400.
- The app has no oracle-failure retry, no filtering of key 0, no rescheduling of an early run, no 150 ms sixteenth ticks and no stop pass. The model asserts none of them.
