/** The engine's sound resource: a holder for sample data and its format,
    with a dirty flag that tells the sound renderer to re-read it. Every
    setter raises the flag; the getters return the last value stored. */
module Audio {
  import opened Errors

  /** A Java int. */
  newtype int32 = x: int | -0x8000_0000 <= x < 0x8000_0000

  /** A host sample buffer (java.nio.Buffer). Only its identity matters here. */
  class SampleBuffer {
    constructor () {}
  }

  class Sound {
    var samples: SampleBuffer?
    var samplingRate: int32
    var stereo: bool
    var dirty: bool

    /** A new sound has no samples, 16 kHz mono, and is dirty. */
    constructor ()
      ensures GetSamples() == null && GetSamplingRate() == 16000 && !IsStereo() && IsDirty()
    {
      samples := null;
      samplingRate := 16000;
      stereo := false;
      dirty := true;
    }

    function IsStereo(): bool
      reads this
    {
      stereo
    }

    function GetSamples(): SampleBuffer?
      reads this
    {
      samples
    }

    function IsDirty(): bool
      reads this
    {
      dirty
    }

    function GetSamplingRate(): int32
      reads this
    {
      samplingRate
    }

    method SetStereo(b: bool)
      modifies this`stereo, this`dirty
      ensures IsStereo() == b && IsDirty()
    {
      stereo := b;
      SetDirty(true);
    }

    /** A null buffer is refused and nothing changes. */
    method SetSamples(s: SampleBuffer?) returns (r: Outcome)
      modifies this`samples, this`dirty
      ensures s == null ==> r == Thrown(IllegalArgument) && unchanged(this)
      ensures s != null ==> r == Done && GetSamples() == s && IsDirty()
    {
      if s == null {
        return Thrown(IllegalArgument);
      }
      samples := s;
      SetDirty(true);
      return Done;
    }

    method SetDirty(d: bool)
      modifies this`dirty
      ensures IsDirty() == d
    {
      dirty := d;
    }

    method SetSamplingRate(rate: int32)
      modifies this`samplingRate, this`dirty
      ensures GetSamplingRate() == rate && IsDirty()
    {
      samplingRate := rate;
      SetDirty(true);
    }
  }
}
