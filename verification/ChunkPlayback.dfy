/** Playback of streamed audio chunks (`frontend/src/pages/VoiceInterviewPage.tsx`):
    the refs as fields, the callbacks as methods. */
module ChunkPlayback {
  import opened Text

  datatype Drain = Idle | Checking(startedAt: int)

  /** How the drain check ended, when it did. */
  datatype Completion = Completion(timedOut: bool)

  /** What starting a source comes to: it plays, or the audio context raises before or
      after the chunk has been taken from the queue. */
  datatype Start = Starts | RaisesBefore | RaisesAfter

  class ChunkPlayer<Buffer> {
    const maxDrainWaitMs := 30000

    var chunkQueue: seq<Buffer>
    var isChunkPlaying: bool
    /** The buffer of the started source, until its `onended` fires. */
    var source: Option<Buffer>
    var drainCheck: Drain

    ghost var accepted: seq<Buffer>
    ghost var played: seq<Buffer>
    /** The chunk that was taken from the queue but did not start. */
    ghost var lost: seq<Buffer>

    ghost function Playing(): seq<Buffer>
      reads this
    {
      match source case Some(b) => [b] case None => []
    }

    ghost predicate Accounted()
      reads this
    {
      played + Playing() + lost + chunkQueue == accepted
    }

    /** A start has raised: the flag is set and no source will end. */
    ghost predicate Stalled()
      reads this
    {
      isChunkPlaying && source.None?
    }

    /** Between callbacks: the flag is set while a source plays, chunks wait only with the
        flag set, and a stalled player has not played all it accepted. */
    ghost predicate Valid()
      reads this
    {
      && Accounted()
      && (source.Some? || chunkQueue != [] ==> isChunkPlaying)
      && (lost != [] ==> Stalled())
      && (Stalled() ==> lost + chunkQueue != [])
    }

    constructor ()
      ensures Valid() && !Stalled() && accepted == [] && played == [] && drainCheck.Idle?
    {
      chunkQueue, isChunkPlaying, source, drainCheck := [], false, None, Idle;
      accepted, played, lost := [], [], [];
    }

    /** `playNextChunk`: never called while a source is still playing. */
    method PlayNextChunk(start: Start) returns (raised: bool)
      requires Accounted() && source.None? && lost == []
      modifies this`chunkQueue, this`isChunkPlaying, this`source, this`lost
      ensures Valid()
      ensures raised <==> Stalled()
      ensures raised <==> old(chunkQueue) != [] && !start.Starts?
      ensures old(chunkQueue) == [] ==> !isChunkPlaying && chunkQueue == []
      ensures old(chunkQueue) != [] && start.Starts? ==>
        source == Some(old(chunkQueue)[0]) && chunkQueue == old(chunkQueue)[1..]
      ensures raised ==> lost + chunkQueue == old(chunkQueue) && |lost| == if start.RaisesAfter? then 1 else 0
    {
      if |chunkQueue| == 0 {
        isChunkPlaying := false;
        return false;
      }
      isChunkPlaying := true;
      if start.RaisesBefore? {
        return true;
      }
      var buffer := chunkQueue[0];
      chunkQueue := chunkQueue[1..];
      if start.RaisesAfter? {
        lost := [buffer];
        return true;
      }
      source := Some(buffer);
      return false;
    }

    /** `source.onended`. */
    method OnEnded(start: Start)
      requires Valid() && source.Some?
      modifies this`chunkQueue, this`isChunkPlaying, this`source, this`played, this`lost
      ensures Valid() && accepted == old(accepted)
      ensures played == old(played) + [old(source).value]
      ensures Stalled() <==> old(chunkQueue) != [] && !start.Starts?
    {
      played := played + [source.value];
      source := None;
      var _ := PlayNextChunk(start);
    }

    /** `handleAudioChunk`, from where the chunk has been decoded. */
    method HandleAudioChunk(decoded: Option<Buffer>, isLast: bool, now: int, start: Start)
      requires Valid()
      modifies this
      ensures Valid() && played == old(played)
      ensures accepted == old(accepted) + match decoded case Some(b) => [b] case None => []
      ensures old(source).Some? ==> source == old(source)
      ensures Stalled() <==> old(Stalled()) || (decoded.Some? && !old(isChunkPlaying) && !start.Starts?)
      ensures drainCheck == if decoded.Some? && isLast && (old(isChunkPlaying) || start.Starts?)
                            then Checking(now) else old(drainCheck)
    {
      if decoded.None? {
        return;  // a chunk that cannot be decoded is dropped, also when it is the last
      }
      chunkQueue := chunkQueue + [decoded.value];
      accepted := accepted + [decoded.value];
      if !isChunkPlaying {
        var raised := PlayNextChunk(start);
        if raised {
          return;  // the handler of the exception goes on without the drain check
        }
      }
      if isLast {
        drainCheck := Checking(now);
      }
    }

    /** One tick of the interval that `scheduleChunkDrainCompletion` installs. */
    method DrainTick(now: int) returns (completion: Option<Completion>)
      requires Valid() && drainCheck.Checking?
      modifies this`drainCheck
      ensures completion.Some? <==> drainCheck.Idle?
      ensures completion.None? ==> drainCheck == old(drainCheck)
      ensures completion == Some(Completion(false)) <==> played == accepted
      ensures completion == Some(Completion(true)) <==>
        played != accepted && now - old(drainCheck).startedAt > 30000
    {
      if |chunkQueue| == 0 && !isChunkPlaying {
        drainCheck := Idle;
        completion := Some(Completion(false));
      } else if now - drainCheck.startedAt > maxDrainWaitMs {
        drainCheck := Idle;
        completion := Some(Completion(true));
      } else {
        completion := None;
      }
    }
  }
}
