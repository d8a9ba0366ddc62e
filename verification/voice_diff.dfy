/**
 The voice diff: given the voicing that sounded in the previous tick (if any)
 and the voicing the oracle chose for this tick, the ordered note-off /
 note-on commands sent downstream. Every command goes to the accompaniment
 channel with the current velocity, and keys are passed through unfiltered,
 key 0 included.
 */
module VoiceDiff {
  import opened Notes

  /** A note-on for every voice, in voice order. */
  function NoteOns(voices: seq<Note>, velocity: int): (r: seq<Cmd>)
    ensures |r| == |voices|
    ensures forall i :: 0 <= i < |r| ==> r[i] == NoteOn(AccompanimentChannel, voices[i].key, velocity)
  {
    if |voices| == 0 then []
    else NoteOns(voices[..|voices| - 1], velocity)
         + [NoteOn(AccompanimentChannel, voices[|voices| - 1].key, velocity)]
  }

  /** A note-off for every voice, in voice order. */
  function NoteOffs(voices: seq<Note>, velocity: int): (r: seq<Cmd>)
    ensures |r| == |voices|
    ensures forall i :: 0 <= i < |r| ==> r[i] == NoteOff(AccompanimentChannel, voices[i].key, velocity)
  {
    if |voices| == 0 then []
    else NoteOffs(voices[..|voices| - 1], velocity)
         + [NoteOff(AccompanimentChannel, voices[|voices| - 1].key, velocity)]
  }

  /** A voice is played again when the new note is struck, or when its key
      differs from the one that sounded (even without a strike). */
  predicate Rearticulates(before: Note, after: Note)
  {
    after.strike || after.key != before.key
  }

  /** The commands for one voice of two same-shape voicings. */
  function VoiceEdit(before: Note, after: Note, velocity: int): seq<Cmd>
  {
    if Rearticulates(before, after) then
      [NoteOff(AccompanimentChannel, before.key, velocity),
       NoteOn(AccompanimentChannel, after.key, velocity)]
    else []
  }

  /** Commands for two voicings of the same length, voice by voice in ascending order. */
  function Pairwise(prev: seq<Note>, next: seq<Note>, velocity: int): (r: seq<Cmd>)
    requires |prev| == |next|
    ensures r == [] <==> forall i :: 0 <= i < |next| ==> !Rearticulates(prev[i], next[i])
    ensures forall c :: c in r ==> c.channel == AccompanimentChannel && c.velocity == velocity
  {
    var n := |next|;
    if n == 0 then []
    else Pairwise(prev[..n - 1], next[..n - 1], velocity) + VoiceEdit(prev[n - 1], next[n - 1], velocity)
  }

  /** The indices of the voices that are played again, in ascending order:
      an independent description of which voices the pairwise diff touches. */
  function ChangedVoices(prev: seq<Note>, next: seq<Note>): (r: seq<nat>)
    requires |prev| == |next|
    ensures forall j :: 0 <= j < |r| ==> r[j] < |next| && Rearticulates(prev[r[j]], next[r[j]])
    ensures forall j, k :: 0 <= j < k < |r| ==> r[j] < r[k]
    ensures forall i :: 0 <= i < |next| && Rearticulates(prev[i], next[i]) ==> i in r
  {
    var n := |next|;
    if n == 0 then []
    else
      ChangedVoices(prev[..n - 1], next[..n - 1])
      + (if Rearticulates(prev[n - 1], next[n - 1]) then [n - 1] else [])
  }

  /** The pairwise diff is exactly one note-off of the old key followed by one
      note-on of the new key for each played-again voice, in voice order, and
      nothing for the other voices. */
  lemma {:induction false} PairwiseFollowsChangedVoices(prev: seq<Note>, next: seq<Note>, velocity: int)
    requires |prev| == |next|
    ensures var r, c := Pairwise(prev, next, velocity), ChangedVoices(prev, next);
      && |r| == 2 * |c|
      && forall j :: 0 <= j < |c| ==>
           && r[2 * j] == NoteOff(AccompanimentChannel, prev[c[j]].key, velocity)
           && r[2 * j + 1] == NoteOn(AccompanimentChannel, next[c[j]].key, velocity)
  {
    var n := |next|;
    if n > 0 {
      var p, q := prev[..n - 1], next[..n - 1];
      PairwiseFollowsChangedVoices(p, q, velocity);
      var r0, c0 := Pairwise(p, q, velocity), ChangedVoices(p, q);
      var r, c := Pairwise(prev, next, velocity), ChangedVoices(prev, next);
      assert r == r0 + VoiceEdit(prev[n - 1], next[n - 1], velocity);
      assert c == c0 + (if Rearticulates(prev[n - 1], next[n - 1]) then [n - 1] else []);
      forall j | 0 <= j < |c0|
        ensures r[2 * j] == NoteOff(AccompanimentChannel, prev[c[j]].key, velocity)
        ensures r[2 * j + 1] == NoteOn(AccompanimentChannel, next[c[j]].key, velocity)
      {
        assert c[j] == c0[j] && c0[j] < n - 1;
        assert r[2 * j] == r0[2 * j] && r[2 * j + 1] == r0[2 * j + 1];
      }
    }
  }

  /** The diff from the previous voicing (`None` before the first oracle call)
      to the next one, as sent downstream. */
  function Diff(prev: Option<seq<Note>>, next: seq<Note>, velocity: int): (r: seq<Cmd>)
    // first call: every new voice is struck, in voice order, and nothing is released
    ensures prev.None? ==>
      && |r| == |next|
      && forall i :: 0 <= i < |next| ==> r[i] == NoteOn(AccompanimentChannel, next[i].key, velocity)
    // shape change: release every old voice, then strike every new one
    ensures prev.Some? && |prev.value| != |next| ==>
      && |r| == |prev.value| + |next|
      && (forall i :: 0 <= i < |prev.value| ==> r[i] == NoteOff(AccompanimentChannel, prev.value[i].key, velocity))
      && (forall i :: 0 <= i < |next| ==> r[|prev.value| + i] == NoteOn(AccompanimentChannel, next[i].key, velocity))
    // same shape: silent exactly when every voice sustains its key unstruck
    ensures prev.Some? && |prev.value| == |next| ==>
      (r == [] <==> forall i :: 0 <= i < |next| ==> !Rearticulates(prev.value[i], next[i]))
    ensures forall c :: c in r ==> c.channel == AccompanimentChannel && c.velocity == velocity
  {
    match prev
    case None => NoteOns(next, velocity)
    case Some(before) =>
      if |before| != |next| then NoteOffs(before, velocity) + NoteOns(next, velocity)
      else Pairwise(before, next, velocity)
  }

  /** Same-shape voicings are diffed voice by voice: the commands are those of
      the played-again voices, each an off/on pair, in voice order. */
  lemma DiffSameShape(prev: seq<Note>, next: seq<Note>, velocity: int)
    requires |prev| == |next|
    ensures var r, c := Diff(Some(prev), next, velocity), ChangedVoices(prev, next);
      && |r| == 2 * |c|
      && forall j :: 0 <= j < |c| ==>
           && r[2 * j] == NoteOff(AccompanimentChannel, prev[c[j]].key, velocity)
           && r[2 * j + 1] == NoteOn(AccompanimentChannel, next[c[j]].key, velocity)
  {
    PairwiseFollowsChangedVoices(prev, next, velocity);
  }

  /** Voice i is touched by the same-shape diff exactly when it is struck or
      changes key, and then as one note-off of the old key immediately
      followed by one note-on of the new key, even when the two keys are equal. */
  lemma VoiceReplayedIffRearticulated(prev: seq<Note>, next: seq<Note>, velocity: int, i: nat)
    requires |prev| == |next| && i < |next|
    ensures var c := ChangedVoices(prev, next);
      (exists j :: 0 <= j < |c| && c[j] == i) <==> Rearticulates(prev[i], next[i])
    ensures var r, c := Diff(Some(prev), next, velocity), ChangedVoices(prev, next);
      forall j :: 0 <= j < |c| && c[j] == i ==>
        && 2 * j + 1 < |r|
        && r[2 * j] == NoteOff(AccompanimentChannel, prev[i].key, velocity)
        && r[2 * j + 1] == NoteOn(AccompanimentChannel, next[i].key, velocity)
  {
    DiffSameShape(prev, next, velocity);
  }

  /** An identical, all-sustained voicing produces no command. */
  lemma SustainIsSilent(voices: seq<Note>, velocity: int)
    requires forall i :: 0 <= i < |voices| ==> !voices[i].strike
    ensures Diff(Some(voices), voices, velocity) == []
  {
  }
}
