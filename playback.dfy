/** The host's audio output: a shared FIFO of samples that the receiving side appends to
    and trims from the front, and that the output callback drains, filling with silence
    when it runs dry. */
module Playback {
  import opened Base
  import opened Sequences

  /** `BUFFER_SIZE`. */
  const BUFFER_SIZE: nat := 4096
  /** The FIFO is trimmed back to eight times `BUFFER_SIZE` after each batch. */
  const MAX_BUFFERED: nat := BUFFER_SIZE * 8

  /** What the callback writes when no sample is buffered. */
  const SILENCE: real := 0.0

  /** The newest `MAX_BUFFERED` samples of `s`, oldest first. */
  function Trim(s: seq<real>): (r: seq<real>)
    ensures |r| == Min(|s|, MAX_BUFFERED)
    ensures r == s[|s| - |r|..]
  {
    if |s| > MAX_BUFFERED then s[|s| - MAX_BUFFERED..] else s
  }

  /** What a callback asking for `n` samples writes: the oldest buffered samples, then
      silence for the rest. */
  function Output(buffer: seq<real>, n: nat): (out: seq<real>)
    ensures |out| == n
    ensures forall i :: 0 <= i < n ==> out[i] == if i < |buffer| then buffer[i] else SILENCE
  {
    var m := Min(n, |buffer|);
    buffer[..m] + seq(n - m, _ => SILENCE)
  }

  class Player {
    var buffer: seq<real>

    constructor ()
      ensures buffer == []
    {
      buffer := [];
    }

    /** A batch from the decoder channel: each sample pushed at the back, then the
        oldest popped while more than `MAX_BUFFERED` are held. */
    method Feed(samples: seq<real>)
      modifies this
      ensures buffer == Trim(old(buffer) + samples)
      ensures |buffer| <= MAX_BUFFERED
    {
      for i := 0 to |samples|
        invariant buffer == old(buffer) + samples[..i]
      {
        buffer := buffer + [samples[i]];
        assert samples[..i + 1] == samples[..i] + [samples[i]];
      }
      assert samples[..|samples|] == samples;
      ghost var whole := buffer;
      while |buffer| > MAX_BUFFERED
        invariant |buffer| <= |whole| && buffer == whole[|whole| - |buffer|..]
        invariant |whole| > MAX_BUFFERED ==> |buffer| >= MAX_BUFFERED
        invariant |whole| <= MAX_BUFFERED ==> buffer == whole
        decreases |buffer|
      {
        buffer := buffer[1..];
      }
    }

    /** The output callback for a block of `n` samples. */
    method Callback(n: nat) returns (out: seq<real>)
      modifies this
      ensures out == Output(old(buffer), n)
      ensures buffer == old(buffer)[Min(n, |old(buffer)|)..]
    {
      out := [];
      for i := 0 to n
        invariant |out| == i
        invariant buffer == old(buffer)[Min(i, |old(buffer)|)..]
        invariant forall j :: 0 <= j < i ==> out[j] == if j < |old(buffer)| then old(buffer)[j] else SILENCE
      {
        if buffer != [] {
          out := out + [buffer[0]];
          buffer := buffer[1..];
        } else {
          out := out + [SILENCE];
        }
      }
    }
  }

  /** One event the FIFO sees: a batch fed, or a callback for `n` samples. */
  datatype Event = Fed(samples: seq<real>) | Pulled(n: nat)

  /** The history so far: every sample received, every buffered sample played (silence
      excluded), and what is buffered now. */
  datatype History = History(received: seq<real>, played: seq<real>, buffer: seq<real>)

  function After(h: History, e: Event): History
  {
    match e
    case Fed(s) => History(h.received + s, h.played, Trim(h.buffer + s))
    case Pulled(n) =>
      var m := Min(n, |h.buffer|);
      History(h.received, h.played + h.buffer[..m], h.buffer[m..])
  }

  function Replay(h: History, events: seq<Event>): History
    decreases |events|
  {
    if events == [] then h else Replay(After(h, events[0]), events[1..])
  }

  /** `a` is what is left of `b` once a prefix is dropped. */
  predicate SuffixOf<T(==)>(a: seq<T>, b: seq<T>)
  {
    |a| <= |b| && a == b[|b| - |a|..]
  }

  /** The FIFO discipline: the buffer holds at most `MAX_BUFFERED` samples, all of them
      the newest received ones, and the samples played followed by those still buffered
      are the received samples with some left out, the rest in arrival order. */
  ghost predicate Fifo(h: History)
  {
    |h.buffer| <= MAX_BUFFERED && SuffixOf(h.buffer, h.received) &&
    SubsequenceOf(h.played + h.buffer, h.received)
  }

  /** Dropping the middle part keeps a subsequence. */
  lemma DropMiddle<T>(p: seq<T>, d: seq<T>, t: seq<T>)
    ensures SubsequenceOf(p + t, p + (d + t))
  {
    SubsequenceRefl(t);
    SubsequenceBefore(d, t, t);
    SubsequencePrefix(p, t, d + t);
  }

  lemma FedKeepsFifo(h: History, s: seq<real>)
    requires Fifo(h)
    ensures Fifo(After(h, Fed(s)))
  {
    var whole := h.buffer + s;
    var t := Trim(whole);
    var d := whole[..|whole| - |t|];
    assert whole == d + t;
    assert SuffixOf(t, h.received + s) by {
      assert (h.received + s)[|h.received + s| - |whole|..] == whole;
    }
    SubsequenceAppendBoth(h.played + h.buffer, h.received, s);
    assert h.played + h.buffer + s == h.played + (d + t);
    DropMiddle(h.played, d, t);
    SubsequenceTrans(h.played + t, h.played + (d + t), h.received + s);
  }

  lemma PulledKeepsFifo(h: History, n: nat)
    requires Fifo(h)
    ensures Fifo(After(h, Pulled(n)))
  {
    var m := Min(n, |h.buffer|);
    assert h.played + h.buffer[..m] + h.buffer[m..] == h.played + h.buffer;
    assert h.received[|h.received| - |h.buffer[m..]|..] == h.buffer[m..];
  }

  /** Over any run of batches and callbacks (starting, say, from the empty FIFO of
      `EmptyIsFifo`), only the oldest samples are ever dropped, and everything played
      was received, in arrival order, at most once. */
  lemma {:induction false} FifoOverRun(h: History, events: seq<Event>)
    requires Fifo(h)
    ensures Fifo(Replay(h, events))
    decreases |events|
  {
    if events != [] {
      match events[0] {
        case Fed(s) => FedKeepsFifo(h, s);
        case Pulled(n) => PulledKeepsFifo(h, n);
      }
      FifoOverRun(After(h, events[0]), events[1..]);
    }
  }

  lemma EmptyIsFifo()
    ensures Fifo(History([], [], []))
  {
  }

  /** A callback's output holds exactly the samples the history records as played,
      followed by silence. */
  lemma CallbackPlays(h: History, n: nat)
    ensures var m := Min(n, |h.buffer|);
      After(h, Pulled(n)).played == h.played + Output(h.buffer, n)[..m] &&
      forall i :: m <= i < n ==> Output(h.buffer, n)[i] == SILENCE
  {
  }
}
