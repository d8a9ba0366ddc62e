/**
 Values exchanged by the accompaniment engine: melody and accompaniment
 notes, and the MIDI commands it sends to the downstream listener.
 */
module Notes {

  /** Present or absent value; `None` stands for a Java `null` reference. */
  datatype Option<+T> = None | Some(value: T)

  /** A MIDI key and whether this tick attacks it (`strike`) or sustains it.
      In the melody, key 0 stands for silence; voicings pass every key through. */
  datatype Note = Note(key: int, strike: bool)

  /** A command sent to the downstream MIDI listener. */
  datatype Cmd =
    | NoteOn(channel: int, key: int, velocity: int)
    | NoteOff(channel: int, key: int, velocity: int)

  /** The melody sentinel held before the first note-on and after every note-off. */
  const MelodyOff: Note := Note(0, true)

  /** The channel every accompaniment command is sent on. */
  const AccompanimentChannel: int := 0
}
