// The player's module-level state: the audio context `play` opens and `stop`
// closes, and the song `play` falls back to when it is given none.

module Session {
  import opened Music
  import opened Timeline
  import opened Harmony
  import opened Rhythm
  import opened Pitch
  import opened Composer
  import Scheduler

  /** The song the builder assembles from draws, when it closes. */
  predicate BuiltFrom(song: Song, d: Draws)
    requires ThreeSections(d)
  {
    && |d.form| > 0 && d.form[|d.form| - 1] < 3
    && song.form == d.form
    && |song.segments| == 3
    && (forall i :: 0 <= i < 3 ==> song.segments[i] == SectionOf(d, i))
    && song.ending == EndingFor(d.notes[d.form[|d.form| - 1]])
  }

  /** Whatever the sampler draws by its rules, the song built from it is one
      the player gets through: the form names existing sections, and every
      section and the ending has a bass line that moves time on, a chord to
      play and a rhythm event for each note. */
  lemma BuiltSongPlayable(d: Draws, t: SamplerTrace, song: Song)
    requires DrawsAdmissible(d, t) && BuiltFrom(song, d)
    ensures Scheduler.Playable(song)
  {
    FormStates(d.form);
    SectionLoopable(d, t, 0);
    SectionLoopable(d, t, 1);
    SectionLoopable(d, t, 2);
    AssembledPlayable(d, song);
  }

  lemma AssembledPlayable(d: Draws, song: Song)
    requires ThreeSections(d) && BuiltFrom(song, d)
    requires forall i :: 0 <= i < |d.form| ==> d.form[i] <= 2
    requires Scheduler.Loopable(SectionOf(d, 0)) && Scheduler.Loopable(SectionOf(d, 1)) && Scheduler.Loopable(SectionOf(d, 2))
    ensures Scheduler.Playable(song)
  {
    assert song.ending.bassLineRhythm == [RhythmEvent(16, false)];
  }

  /** The song builder run on draws the sampler can make: it always
      closes, and gives a song the player gets through. */
  method BuildPlayable(d: Draws, ghost t: SamplerTrace) returns (song: Song)
    requires DrawsAdmissible(d, t)
    ensures BuiltFrom(song, d) && Scheduler.Playable(song)
  {
    FormStates(d.form);
    var r := Build(d);
    song := r.value;
    BuiltSongPlayable(d, t, song);
  }

  /** Each section built from admissible draws can be looped. */
  lemma SectionLoopable(d: Draws, t: SamplerTrace, i: nat)
    requires DrawsAdmissible(d, t) && i < 3
    ensures Scheduler.Loopable(SectionOf(d, i))
  {
    assert NotesAdmissible(d.notes[i], Tile(d.melodyUnits[i]), t.chordAt[i], t.firstNote[i]);
    RhythmShape(Part.BassLine, d.bassLineRhythms[i], t.bassFirstRest[i]);
  }

  class Player {
    /** Whether an audio context is open. */
    var open: bool
    /** The triggers scheduled on the open context; closing it silences them. */
    var scheduled: seq<Trigger>
    /** The song built when the player was loaded, or the last one built
        and played. */
    var currentSong: Song

    ghost predicate Valid()
      reads this
    {
      && (!open ==> scheduled == [])
      && Scheduler.Playable(currentSong)
    }

    /** Loading the player builds a first song from the sampler's draws and
        opens no context. */
    constructor (d: Draws, ghost t: SamplerTrace)
      requires DrawsAdmissible(d, t)
      ensures Valid() && !open && BuiltFrom(currentSong, d)
    {
      var song := BuildPlayable(d, t);
      new;
      Load(song);
    }

    /** Keeps a playable song as the current song, with no context open. */
    method Load(song: Song)
      requires Scheduler.Playable(song)
      modifies this
      ensures Valid() && !open && currentSong == song
    {
      open, scheduled, currentSong := false, [], song;
    }

    /** Plays `song`, or the current song when none is given: whatever the
        open context had scheduled is dropped with it, and a fresh context
        holds exactly the song's schedule. */
    method Play(song: Option<Song>, bpb: nat)
      requires Valid() && bpb > 0
      requires song.Some? ==> Scheduler.Playable(song.value)
      modifies this
      ensures Valid() && open && currentSong == old(currentSong)
      ensures scheduled == Scheduler.Schedule(if song.Some? then song.value else old(currentSong), bpb)
    {
      var s := if song.Some? then song.value else currentSong;
      if open {
        Stop();
      }
      var ts := Scheduler.Play(s, bpb);
      Open(ts);
    }

    /** Opens a fresh context holding exactly the triggers `ts`. */
    method Open(ts: seq<Trigger>)
      requires Valid() && !open
      modifies this
      ensures Valid() && open && scheduled == ts && currentSong == old(currentSong)
    {
      open, scheduled := true, ts;
    }

    /** Closes the open context, if any, silencing everything it had
        scheduled; with no context open it does nothing. */
    method Stop()
      requires Valid()
      modifies this
      ensures Valid() && !open && scheduled == [] && currentSong == old(currentSong)
    {
      if !open {
        return;
      }
      open := false;
      scheduled := [];
    }

    /** Builds a song from the sampler's draws, keeps it as the current song
        and plays it. */
    method BuildAndPlay(d: Draws, ghost t: SamplerTrace, bpb: nat)
      requires Valid() && bpb > 0 && DrawsAdmissible(d, t)
      modifies this
      ensures Valid() && open && BuiltFrom(currentSong, d)
      ensures scheduled == Scheduler.Schedule(currentSong, bpb)
    {
      var song := BuildPlayable(d, t);
      PlayBuilt(song, bpb);
    }

    /** Keeps a song just built as the current song and plays it. */
    method PlayBuilt(song: Song, bpb: nat)
      requires Valid() && bpb > 0 && Scheduler.Playable(song)
      modifies this
      ensures Valid() && open && currentSong == song
      ensures scheduled == Scheduler.Schedule(song, bpb)
    {
      currentSong := song;
      Play(Some(song), bpb);
    }
  }
}
