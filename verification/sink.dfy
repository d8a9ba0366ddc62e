/**
 What the downstream listener holds on: the multiset of keys with an
 outstanding accompaniment note-on. A note-on adds one occurrence of its key;
 a note-off removes one occurrence and is ignored for a key that is not on.
 With this reading, the voice diff turns the keys of the previous voicing
 into the keys of the new one.
 */
module Sink {
  import opened Notes
  import opened VoiceDiff

  /** The effect of one command on the outstanding keys. */
  function Perform(on: multiset<int>, c: Cmd): multiset<int>
  {
    match c
    case NoteOn(_, key, _) => on + multiset{key}
    case NoteOff(_, key, _) => on - multiset{key}
  }

  /** The outstanding keys after sending `cmds`, in order, starting from `on`. */
  function Apply(on: multiset<int>, cmds: seq<Cmd>): multiset<int>
  {
    if |cmds| == 0 then on
    else Perform(Apply(on, cmds[..|cmds| - 1]), cmds[|cmds| - 1])
  }

  /** The keys of a voicing, counted with multiplicity. */
  function KeyBag(voices: seq<Note>): (r: multiset<int>)
    ensures |r| == |voices|
    ensures forall i :: 0 <= i < |voices| ==> voices[i].key in r
  {
    if |voices| == 0 then multiset{}
    else KeyBag(voices[..|voices| - 1]) + multiset{voices[|voices| - 1].key}
  }

  /** The keys of the remembered voicing; none before the first oracle call. */
  function SoundingBag(sounding: Option<seq<Note>>): multiset<int>
  {
    match sounding
    case None => multiset{}
    case Some(voices) => KeyBag(voices)
  }

  /** Sending two command sequences one after the other. */
  lemma {:induction false} ApplyConcat(on: multiset<int>, a: seq<Cmd>, b: seq<Cmd>)
    ensures Apply(on, a + b) == Apply(Apply(on, a), b)
  {
    if |b| == 0 {
      assert a + b == a;
    } else {
      ApplyConcat(on, a, b[..|b| - 1]);
      assert (a + b)[..|a + b| - 1] == a + b[..|b| - 1];
    }
  }

  /** Removing a key from a bag within `x + {key}` leaves a bag within `x`. */
  lemma RemoveOneWithin(q: multiset<int>, x: multiset<int>, key: int)
    requires q <= x + multiset{key}
    ensures q - multiset{key} <= x
  {
    forall k ensures (q - multiset{key})[k] <= x[k] {
      assert q[k] <= (x + multiset{key})[k];
    }
  }

  /** Moving one key of a bag union between its operands. */
  lemma Regroup(keys: multiset<int>, rest: multiset<int>, key: int)
    ensures (keys + multiset{key}) + rest == keys + (rest + multiset{key})
    ensures keys + (rest + multiset{key}) == (keys + rest) + multiset{key}
  {
  }

  /** Striking a voicing adds its keys. */
  lemma {:induction false} NoteOnsAddKeys(on: multiset<int>, voices: seq<Note>, velocity: int)
    ensures Apply(on, NoteOns(voices, velocity)) == on + KeyBag(voices)
  {
    var n := |voices|;
    if n > 0 {
      var cmds := NoteOns(voices, velocity);
      NoteOnsAddKeys(on, voices[..n - 1], velocity);
      assert cmds[..n - 1] == NoteOns(voices[..n - 1], velocity);
    }
  }

  /** Releasing a voicing removes its keys: from bags within `keys + rest`
      it leaves a bag within `rest`, and exactly `rest` from `keys + rest`. */
  lemma {:induction false} NoteOffsRemoveKeys(on: multiset<int>, voices: seq<Note>, velocity: int, rest: multiset<int>)
    requires on <= KeyBag(voices) + rest
    ensures Apply(on, NoteOffs(voices, velocity)) <= rest
    ensures on == KeyBag(voices) + rest ==> Apply(on, NoteOffs(voices, velocity)) == rest
  {
    var n := |voices|;
    if n > 0 {
      var last := voices[n - 1].key;
      var cmds := NoteOffs(voices, velocity);
      assert KeyBag(voices) + rest == KeyBag(voices[..n - 1]) + (rest + multiset{last});
      NoteOffsRemoveKeys(on, voices[..n - 1], velocity, rest + multiset{last});
      assert cmds[..n - 1] == NoteOffs(voices[..n - 1], velocity);
      RemoveOneWithin(Apply(on, cmds[..n - 1]), rest, last);
    } else {
      assert KeyBag(voices) + rest == rest;
    }
  }

  /** One voice's edit replaces its old key by its new key. */
  lemma VoiceEditReplacesKey(on: multiset<int>, rest: multiset<int>, before: Note, after: Note, velocity: int)
    requires on <= rest + multiset{before.key}
    ensures Apply(on, VoiceEdit(before, after, velocity)) <= rest + multiset{after.key}
    ensures on == rest + multiset{before.key} ==>
      Apply(on, VoiceEdit(before, after, velocity)) == rest + multiset{after.key}
  {
    var edit := VoiceEdit(before, after, velocity);
    if Rearticulates(before, after) {
      var off := on - multiset{before.key};
      assert edit[..1][..0] == [];
      assert Apply(on, edit[..1]) == off;
      assert Apply(on, edit) == off + multiset{after.key};
      RemoveOneWithin(on, rest, before.key);
    }
  }

  /** The pairwise diff replaces each played-again voice's key by its new key.
      `rest` holds the keys of voices the diff has not reached yet. */
  lemma {:induction false} PairwiseReplacesKeys(on: multiset<int>, prev: seq<Note>, next: seq<Note>, velocity: int, rest: multiset<int>)
    requires |prev| == |next|
    requires on <= KeyBag(prev) + rest
    ensures Apply(on, Pairwise(prev, next, velocity)) <= KeyBag(next) + rest
    ensures on == KeyBag(prev) + rest ==> Apply(on, Pairwise(prev, next, velocity)) == KeyBag(next) + rest
  {
    var n := |next|;
    if n == 0 {
      assert KeyBag(prev) + rest == rest && KeyBag(next) + rest == rest;
    } else {
      var p, q := prev[..n - 1], next[..n - 1];
      var a, b := prev[n - 1], next[n - 1];
      var front := Pairwise(p, q, velocity);
      assert Pairwise(prev, next, velocity) == front + VoiceEdit(a, b, velocity);
      Regroup(KeyBag(p), rest, a.key);
      Regroup(KeyBag(q), rest, b.key);
      Regroup(KeyBag(q), rest, a.key);
      PairwiseReplacesKeys(on, p, q, velocity, rest + multiset{a.key});
      var mid := Apply(on, front);
      ApplyConcat(on, front, VoiceEdit(a, b, velocity));
      VoiceEditReplacesKey(mid, KeyBag(q) + rest, a, b, velocity);
    }
  }

  /** Diffing from the remembered voicing: outstanding keys within the old
      voicing's keys end up within the new voicing's keys, and exactly the old
      keys become exactly the new keys. */
  lemma DiffReplacesKeys(on: multiset<int>, prev: Option<seq<Note>>, next: seq<Note>, velocity: int)
    requires on <= SoundingBag(prev)
    ensures Apply(on, Diff(prev, next, velocity)) <= KeyBag(next)
    ensures on == SoundingBag(prev) ==> Apply(on, Diff(prev, next, velocity)) == KeyBag(next)
  {
    match prev
    case None =>
      assert on == multiset{};
      NoteOnsAddKeys(on, next, velocity);
    case Some(before) =>
      if |before| != |next| {
        NoteOffsRemoveKeys(on, before, velocity, multiset{});
        ApplyConcat(on, NoteOffs(before, velocity), NoteOns(next, velocity));
        NoteOnsAddKeys(Apply(on, NoteOffs(before, velocity)), next, velocity);
      } else {
        PairwiseReplacesKeys(on, before, next, velocity, multiset{});
      }
  }

  /** Releasing the remembered voicing leaves nothing outstanding when the
      outstanding keys are within its keys. */
  lemma ReleaseSilences(on: multiset<int>, voices: seq<Note>, velocity: int)
    requires on <= KeyBag(voices)
    ensures Apply(on, NoteOffs(voices, velocity)) == multiset{}
  {
    NoteOffsRemoveKeys(on, voices, velocity, multiset{});
  }
}
