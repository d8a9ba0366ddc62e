/**
 Concrete sessions that exhibit two consequences of keeping the last voicing
 when the accompaniment goes idle: a second idle pass releases the kept
 voicing again, and the first voicing of the next quarter is diffed against
 the kept one, so a sustained voice is never switched back on.
 */
module Scenarios {
  import opened Notes
  import opened VoiceDiff
  import opened Sink
  import opened Scheduler
  import opened Session

  /** An oracle with one voice that strikes key 64 on its first tick and
      sustains it on every later tick. */
  function StrikeOnce(queries: seq<Note>): seq<Note>
  {
    [Note(64, |queries| == 1)]
  }

  /** Number of note-ons (`noteOn`) or note-offs of `key` in `cmds`. */
  function CountKey(cmds: seq<Cmd>, key: int, noteOn: bool): (n: nat)
    ensures n == 0 <==> forall i :: 0 <= i < |cmds| ==> !(cmds[i].key == key && cmds[i].NoteOn? == noteOn)
  {
    if |cmds| == 0 then 0
    else CountKey(cmds[..|cmds| - 1], key, noteOn)
         + (var c := cmds[|cmds| - 1]; if c.key == key && c.NoteOn? == noteOn then 1 else 0)
  }

  /** Melody key 60 held through the first tick and released; the quarter is
      completed with the remembered note, then the accompaniment goes idle. */
  const QuarterThenIdle: seq<Input> := [
    MelodyNoteOn(0, 60, 90), Fire(0, 0), MelodyNoteOff(0, 60, 0),
    Fire(600, 600), Fire(1200, 1200), Fire(1800, 1800), Fire(2400, 2400)]

  /** The first tick after the melody note-on strikes the oracle's voice. */
  lemma FirstTick(m: Machine)
    requires m.listener == Listener(0, 0, 0, None, MelodyOff, Note(60, true), 90)
    requires m.queries == []
    ensures var m' := Step(m, Fire(0, 0), StrikeOnce);
      && m'.listener == Listener(1, 0, 600, Some([Note(64, true)]), Note(60, false), Note(60, false), 90)
      && m'.accompaniment == m.accompaniment + [NoteOn(0, 64, 90)]
      && m'.queries == [Note(60, true)]
  {
    var r := Run(m.listener, 0, 0, q => StrikeOnce(m.queries + [q]));
    assert r.query == Some(Note(60, true));
    assert r.cmds == NoteOns([Note(64, true)], 90);
  }

  /** With the melody off mid-quarter, the remaining ticks still ask the
      oracle about the remembered note 60; the sustained voice sends nothing. */
  lemma SustainedTick(m: Machine, tick: int, now: int, sounding: seq<Note>, melody: Note)
    requires 1 <= tick <= 3 && now == 600 * tick && melody.key == 0
    requires m.listener == Listener(tick, 0, now, Some(sounding), Note(60, false), melody, 90)
    requires sounding == [Note(64, true)] || sounding == [Note(64, false)]
    requires |m.queries| >= 1
    ensures var m' := Step(m, Fire(now, now), StrikeOnce);
      && m'.listener == Listener(tick + 1, 0, now + 600, Some([Note(64, false)]), Note(60, false), Note(0, false), 90)
      && m'.accompaniment == m.accompaniment
      && m'.queries == m.queries + [Note(60, false)]
  {
    var r := Run(m.listener, now, now, q => StrikeOnce(m.queries + [q]));
    assert r.query == Some(Note(60, false));
    assert |m.queries + [Note(60, false)]| >= 2;
    assert StrikeOnce(m.queries + [Note(60, false)]) == [Note(64, false)];
    assert r.cmds == Pairwise(sounding, [Note(64, false)], 90);
  }

  /** At the end of the quarter, with no melody, the kept voicing is released. */
  lemma IdleTick(m: Machine, tick: int, now: int, lastMelody: Note, melody: Note)
    requires tick == 4 || tick == -1
    requires melody.key == 0 && now >= 2400
    requires m.listener == Listener(tick, 0, 2400, Some([Note(64, false)]), lastMelody, melody, 90)
    ensures var m' := Step(m, Fire(now, now), StrikeOnce);
      && m'.listener == Listener(-1, 0, 2400, Some([Note(64, false)]), melody, melody, 90)
      && m'.accompaniment == m.accompaniment + [NoteOff(0, 64, 90)]
      && m'.queries == m.queries
  {
    var r := Run(m.listener, now, now, q => StrikeOnce(m.queries + [q]));
    assert r.cmds == NoteOffs([Note(64, false)], 90);
  }

  /** `QuarterThenIdle` as nested steps. */
  lemma QuarterThenIdleUnfolds()
    ensures Execute(Start, QuarterThenIdle, StrikeOnce) ==
      var o := StrikeOnce;
      Step(Step(Step(Step(Step(Step(Step(Start,
        MelodyNoteOn(0, 60, 90), o), Fire(0, 0), o), MelodyNoteOff(0, 60, 0), o),
        Fire(600, 600), o), Fire(1200, 1200), o), Fire(1800, 1800), o), Fire(2400, 2400), o)
  {
    var o := StrikeOnce;
    var i0, i1, i2, i3 := MelodyNoteOn(0, 60, 90), Fire(0, 0), MelodyNoteOff(0, 60, 0), Fire(600, 600);
    var i4, i5, i6 := Fire(1200, 1200), Fire(1800, 1800), Fire(2400, 2400);
    ExecuteSnoc(Start, [], i0, o);
    ExecuteSnoc(Start, [i0], i1, o);
    ExecuteSnoc(Start, [i0, i1], i2, o);
    ExecuteSnoc(Start, [i0, i1, i2], i3, o);
    ExecuteSnoc(Start, [i0, i1, i2, i3], i4, o);
    ExecuteSnoc(Start, [i0, i1, i2, i3, i4], i5, o);
    ExecuteSnoc(Start, [i0, i1, i2, i3, i4, i5], i6, o);
    assert [i0, i1, i2, i3, i4, i5] + [i6] == QuarterThenIdle;
  }

  /** The state a session reaches after `QuarterThenIdle`. */
  lemma QuarterThenIdleReaches()
    ensures var m := Execute(Start, QuarterThenIdle, StrikeOnce);
      && m.listener == Listener(-1, 0, 2400, Some([Note(64, false)]), Note(0, false), Note(0, false), 90)
      && m.accompaniment == [NoteOn(0, 64, 90), NoteOff(0, 64, 90)]
      && |m.queries| == 4
  {
    var o := StrikeOnce;
    var m0 := Step(Start, MelodyNoteOn(0, 60, 90), o);
    assert m0.listener == Listener(0, 0, 0, None, MelodyOff, Note(60, true), 90) && m0.queries == [];
    FirstTick(m0);
    var m1 := Step(m0, Fire(0, 0), o);
    var m2 := Step(m1, MelodyNoteOff(0, 60, 0), o);
    SustainedTick(m2, 1, 600, [Note(64, true)], MelodyOff);
    var m3 := Step(m2, Fire(600, 600), o);
    SustainedTick(m3, 2, 1200, [Note(64, false)], Note(0, false));
    var m4 := Step(m3, Fire(1200, 1200), o);
    SustainedTick(m4, 3, 1800, [Note(64, false)], Note(0, false));
    var m5 := Step(m4, Fire(1800, 1800), o);
    IdleTick(m5, 4, 2400, Note(60, false), Note(0, false));
    QuarterThenIdleUnfolds();
  }

  /** A melody note-on arriving while idle starts a new quarter at once. The
      oracle's voice sustains key 64, which the kept voicing still holds, so
      the diff sends nothing. */
  lemma ResumeTick(m: Machine)
    requires m.listener == Listener(-1, 0, 2400, Some([Note(64, false)]), Note(0, false), Note(62, true), 90)
    requires |m.queries| == 4
    ensures var m' := Step(m, Fire(3000, 3000), StrikeOnce);
      && m'.listener == Listener(1, 3000, 3600, Some([Note(64, false)]), Note(62, false), Note(62, false), 90)
      && m'.accompaniment == m.accompaniment
  {
    var r := Run(m.listener, 3000, 3000, q => StrikeOnce(m.queries + [q]));
    assert r.query == Some(Note(62, true));
    assert StrikeOnce(m.queries + [Note(62, true)]) == [Note(64, false)];
    assert r.cmds == Pairwise([Note(64, false)], [Note(64, false)], 90);
  }

  /** While idle, a melody note-on and note-off before the timer task runs
      leave the melody off, so the run takes the idle branch again. */
  lemma ShortNoteWhileIdle(m: Machine)
    requires m.listener == Listener(-1, 0, 2400, Some([Note(64, false)]), Note(0, false), Note(0, false), 90)
    ensures var m' := Execute(m, [MelodyNoteOn(0, 62, 90), MelodyNoteOff(0, 62, 0), Fire(2500, 2500)], StrikeOnce);
      && m'.listener.tick == -1
      && m'.accompaniment == m.accompaniment + [NoteOff(0, 64, 90)]
  {
    var a, b, c := MelodyNoteOn(0, 62, 90), MelodyNoteOff(0, 62, 0), Fire(2500, 2500);
    ExecuteSnoc(m, [], a, StrikeOnce);
    ExecuteSnoc(m, [a], b, StrikeOnce);
    ExecuteSnoc(m, [a, b], c, StrikeOnce);
    assert [] + [a] == [a] && [a] + [b] == [a, b] && [a, b] + [c] == [a, b, c];
    var m7 := Step(m, MelodyNoteOn(0, 62, 90), StrikeOnce);
    var m8 := Step(m7, MelodyNoteOff(0, 62, 0), StrikeOnce);
    IdleTick(m8, -1, 2500, Note(0, false), MelodyOff);
  }

  /** One note-on and two note-offs of key 64. */
  lemma DoubleReleaseCounts()
    ensures var acc := [NoteOn(0, 64, 90), NoteOff(0, 64, 90), NoteOff(0, 64, 90)];
      CountKey(acc, 64, true) == 1 && CountKey(acc, 64, false) == 2
  {
    var acc := [NoteOn(0, 64, 90), NoteOff(0, 64, 90), NoteOff(0, 64, 90)];
    assert acc[..2] == [NoteOn(0, 64, 90), NoteOff(0, 64, 90)];
    assert acc[..2][..1] == [NoteOn(0, 64, 90)] && acc[..2][..1][..0] == [];
  }

  /** Running more steps after `QuarterThenIdle`. The oracle is a parameter
      equal to `StrikeOnce`, which keeps the solver from unfolding the whole
      session at once. */
  lemma AfterQuarterThenIdle(tail: seq<Input>, o: Oracle)
    requires o == StrikeOnce
    ensures var m6 := Execute(Start, QuarterThenIdle, o);
      && Execute(Start, QuarterThenIdle + tail, o) == Execute(m6, tail, o)
      && m6.listener == Listener(-1, 0, 2400, Some([Note(64, false)]), Note(0, false), Note(0, false), 90)
      && m6.accompaniment == [NoteOn(0, 64, 90), NoteOff(0, 64, 90)]
      && |m6.queries| == 4
  {
    ExecuteConcat(Start, QuarterThenIdle, tail, o);
    QuarterThenIdleReaches();
  }

  /** After the idle pass, a melody note too short to be seen by the timer
      task makes the idle branch run a second time. */
  lemma RepeatedIdleReaches()
    ensures var m := Execute(Start, QuarterThenIdle + [MelodyNoteOn(0, 62, 90), MelodyNoteOff(0, 62, 0), Fire(2500, 2500)], StrikeOnce);
      && m.listener.tick == -1
      && m.accompaniment == [NoteOn(0, 64, 90), NoteOff(0, 64, 90), NoteOff(0, 64, 90)]
  {
    var tail := [MelodyNoteOn(0, 62, 90), MelodyNoteOff(0, 62, 0), Fire(2500, 2500)];
    AfterQuarterThenIdle(tail, StrikeOnce);
    ShortNoteWhileIdle(Execute(Start, QuarterThenIdle, StrikeOnce));
  }

  /** The second idle run releases the kept voicing again: key 64 gets two
      note-offs for one note-on. */
  lemma RepeatedIdleReleasesAgain()
    ensures var m := Execute(Start, QuarterThenIdle + [MelodyNoteOn(0, 62, 90), MelodyNoteOff(0, 62, 0), Fire(2500, 2500)], StrikeOnce);
      && m.listener.tick == -1
      && CountKey(m.accompaniment, 64, true) == 1
      && CountKey(m.accompaniment, 64, false) == 2
  {
    RepeatedIdleReaches();
    DoubleReleaseCounts();
  }

  /** A melody note-on while idle, seen by the next run, which starts a new quarter. */
  lemma NoteOnWhileIdle(m: Machine)
    requires m.listener == Listener(-1, 0, 2400, Some([Note(64, false)]), Note(0, false), Note(0, false), 90)
    requires |m.queries| == 4
    ensures var m' := Execute(m, [MelodyNoteOn(0, 62, 90), Fire(3000, 3000)], StrikeOnce);
      && m'.listener == Listener(1, 3000, 3600, Some([Note(64, false)]), Note(62, false), Note(62, false), 90)
      && m'.accompaniment == m.accompaniment
  {
    var a, b := MelodyNoteOn(0, 62, 90), Fire(3000, 3000);
    ExecuteSnoc(m, [], a, StrikeOnce);
    ExecuteSnoc(m, [a], b, StrikeOnce);
    assert [] + [a] == [a] && [a] + [b] == [a, b];
    ResumeTick(Step(m, MelodyNoteOn(0, 62, 90), StrikeOnce));
  }

  /** A note-on of key 64 then a note-off of it leave nothing on; a
      one-voice voicing of key 64 holds key 64. */
  lemma StrikeThenReleaseLeavesNothing()
    ensures Apply(multiset{}, [NoteOn(0, 64, 90), NoteOff(0, 64, 90)]) == multiset{}
    ensures KeyBag([Note(64, false)]) == multiset{64}
  {
    var acc := [NoteOn(0, 64, 90), NoteOff(0, 64, 90)];
    assert acc[..1] == [NoteOn(0, 64, 90)] && acc[..1][..0] == [];
    assert Apply(multiset{}, acc[..1]) == multiset{64};
    assert [Note(64, false)][..0] == [];
  }

  /** After the idle pass, the next quarter runs with melody key 62 held and
      key 64 remembered as sounding, yet no accompaniment note is on: the
      outstanding keys are strictly fewer than the remembered voicing's. */
  lemma StaleVoicingStaysSilent()
    ensures var m := Execute(Start, QuarterThenIdle + [MelodyNoteOn(0, 62, 90), Fire(3000, 3000)], StrikeOnce);
      && m.listener.tick == 1 && m.listener.melody.key == 62
      && SoundingBag(m.listener.sounding) == multiset{64}
      && Outstanding(m) == multiset{}
  {
    var o := StrikeOnce;
    var a, b := MelodyNoteOn(0, 62, 90), Fire(3000, 3000);
    ExecuteConcat(Start, QuarterThenIdle, [a, b], o);
    QuarterThenIdleReaches();
    var m6 := Execute(Start, QuarterThenIdle, o);
    NoteOnWhileIdle(m6);
    StrikeThenReleaseLeavesNothing();
  }
}
