/** The device's audio capture: which recorder gets started, how reads are stamped with
    presentation times, and the clean-up that makes stopping safe to repeat. */
module AudioCapture {
  import opened Base
  import opened Bytes

  const SAMPLE_RATE: nat := 48000
  const CHANNELS: nat := 2
  const BYTES_PER_SAMPLE: nat := 2
  const MAX_READ_SIZE: nat := 1024 * CHANNELS * BYTES_PER_SAMPLE
  const SDK_R: int := 30
  const SDK_TIRAMISU: int := 33

  /** Microseconds of audio in a read of that many bytes of 16-bit stereo at 48 kHz. */
  function DurationUs(bytesRead: nat): nat
  {
    bytesRead * 1000000 / (CHANNELS * BYTES_PER_SAMPLE * SAMPLE_RATE)
  }

  /** The two ways of obtaining a recorder, in the order they are tried. */
  datatype Path = PolicyPath | SubmixPath

  /** How an attempt went: the recorder reached the recording state, it was created but
      did not record, or something threw. */
  datatype Attempt = Recording | NotRecording | Threw

  class Capture {
    var recorder: Option<Path>
    var audioPolicy: bool
    var nextPts: int
    /** The (size, pts) last stored in the buffer info. */
    var info: Option<(nat, int)>
    /** The paths tried by the last `start`. */
    var tried: seq<Path>

    constructor ()
      ensures recorder.None? && !audioPolicy && nextPts == 0 && info.None? && tried == []
    {
      recorder, audioPolicy, nextPts, info, tried := None, false, 0, None, [];
    }

    /** Releases the recorder and unregisters the policy; harmless when there is neither. */
    method Stop()
      modifies this
      ensures recorder.None? && !audioPolicy
      ensures nextPts == old(nextPts) && info == old(info) && tried == old(tried)
    {
      recorder := None;
      audioPolicy := false;
    }

    /** Capture needs Android 11. From Android 13 the audio-policy recorder is tried
        first and cleaned up if it does not record; then the remote-submix recorder.
        The reflective set-up may throw before or after the policy is stored; either way
        the failed attempt ends in `stop`, which drops both, so only the outcome matters. */
    method Start(sdk: int, policy: Attempt, submix: Attempt) returns (ok: bool)
      modifies this
      ensures sdk < SDK_R ==> !ok && tried == old(tried) && recorder == old(recorder) && audioPolicy == old(audioPolicy)
      ensures sdk >= SDK_R ==>
        tried == (if sdk >= SDK_TIRAMISU && policy == Recording then [PolicyPath]
                  else if sdk >= SDK_TIRAMISU then [PolicyPath, SubmixPath]
                  else [SubmixPath])
      ensures sdk >= SDK_R ==> (ok <==> (sdk >= SDK_TIRAMISU && policy == Recording) || submix == Recording)
      ensures sdk >= SDK_R && ok ==> recorder == Some(tried[|tried| - 1])
      ensures sdk >= SDK_R && !ok ==> recorder.None? && !audioPolicy
      ensures sdk >= SDK_TIRAMISU && ok ==> (audioPolicy <==> recorder == Some(PolicyPath))
      ensures nextPts == old(nextPts) && info == old(info)
    {
      if sdk < SDK_R {
        return false;
      }
      tried := [];
      var started := false;
      if sdk >= SDK_TIRAMISU {
        tried := tried + [PolicyPath];
        if policy == Recording {
          audioPolicy := true;
          recorder := Some(PolicyPath);
          started := true;
        } else {
          Stop();
        }
      }
      if !started {
        tried := tried + [SubmixPath];
        if submix == Recording {
          recorder := Some(SubmixPath);
          return true;
        }
        Stop();
        return false;
      }
      ok := true;
    }

    /** Stamps a read: the first call, when nothing is stamped yet, seeds the time from
        the clock (microseconds since boot); each read returns the current time and
        moves it on by the read's duration. */
    method CalculatePts(bytesRead: nat, clockUs: nat) returns (pts: int)
      modifies this
      ensures pts == (if old(nextPts) == 0 then clockUs else old(nextPts))
      ensures nextPts == pts + DurationUs(bytesRead)
      ensures recorder == old(recorder) && audioPolicy == old(audioPolicy) && info == old(info) && tried == old(tried)
    {
      if nextPts == 0 {
        nextPts := clockUs;
      }
      pts := nextPts;
      nextPts := pts + DurationUs(bytesRead);
    }

    /** Reads into the buffer: -1 without a recorder, otherwise what the recorder's
        `read` returned (a byte count, or zero, or a negative error code), with
        `buffer` the bytes it left there. The buffer info is stamped only when bytes
        arrived. */
    method Read(count: int, buffer: bytes, clockUs: nat) returns (n: int, data: bytes)
      requires count > 0 ==> count <= |buffer|
      modifies this
      ensures recorder.None? ==> n == -1 && data == [] && info == old(info) && nextPts == old(nextPts)
      ensures recorder.Some? ==> n == count
      ensures n > 0 ==> (data == buffer[..n]
        && info == Some((n, if old(nextPts) == 0 then clockUs else old(nextPts)))
        && nextPts == info.value.1 + DurationUs(n))
      ensures n <= 0 ==> data == [] && info == old(info) && nextPts == old(nextPts)
      ensures recorder == old(recorder) && audioPolicy == old(audioPolicy) && tried == old(tried)
    {
      if recorder.None? {
        return -1, [];
      }
      n, data := count, [];
      if n > 0 {
        var pts := CalculatePts(n, clockUs);
        info := Some((n, pts));
        data := buffer[..n];
      }
    }
  }

  /** Once the first read has seeded the stamp from the clock, the next read is
      stamped exactly one read's duration later, whatever the clock says by then. */
  method SuccessivePts(c: Capture, first: bytes, second: bytes, clock1: nat, clock2: nat)
    returns (pts1: int, pts2: int)
    requires c.recorder.Some? && c.nextPts == 0 && |first| > 0 && |second| > 0
    modifies c
    ensures pts1 == clock1
    ensures pts2 == pts1 + DurationUs(|first|) && pts1 < pts2
  {
    var n1, _ := c.Read(|first|, first, clock1);
    pts1 := c.info.value.1;
    var n2, _ := c.Read(|second|, second, clock2);
    pts2 := c.info.value.1;
  }
}
