/**
 * `ExtractionSetting`: the audio properties handed to the converter when the sound track of
 * a video is extracted. The codec and the two formats are fixed; the four numbers are
 * checked once, by the constructor, and can be overwritten unchecked afterwards. The
 * `Builder` holds defaults and funnels into the checking constructor.
 */
module Extraction {
  import opened Wrappers

  const CODEC: string := "libvorbis"
  const OUTPUT_FORMAT: string := "ogg"
  const INPUT_FORMAT: string := "mp4"

  const DEFAULT_BITRATE: int := 160000
  const DEFAULT_CHANNELS: int := 2
  const DEFAULT_SAMPLING_RATE: int := 44100
  const DEFAULT_VOLUME: int := 48

  /** The `IllegalArgumentException` of the first failing `checkArgument`, with the value it reports. */
  datatype SettingError =
    | InvalidBitrate(bitrate: int)
    | InvalidChannels(channels: int)
    | InvalidSamplingRate(samplingRate: int)
    | InvalidVolume(volume: int)

  /** All seven properties, as `equals` compares them. */
  datatype Properties = Properties(codec: string, outputFormat: string, inputFormat: string,
                                   bitrate: int, channels: int, samplingRate: int, volume: int)

  /** What the constructor accepts. */
  predicate Acceptable(bitrate: int, channels: int, samplingRate: int, volume: int)
  {
    bitrate > 0 && channels > 0 && samplingRate > 0 && volume >= 0
  }

  /** The constructor's checks, in their order: the first that fails decides the error. */
  function Check(bitrate: int, channels: int, samplingRate: int, volume: int): (r: Option<SettingError>)
    ensures r.None? <==> Acceptable(bitrate, channels, samplingRate, volume)
    ensures r == Some(InvalidBitrate(bitrate)) <==> bitrate <= 0
    ensures r == Some(InvalidChannels(channels)) <==> bitrate > 0 && channels <= 0
    ensures r == Some(InvalidSamplingRate(samplingRate)) <==> bitrate > 0 && channels > 0 && samplingRate <= 0
    ensures r == Some(InvalidVolume(volume)) <==> bitrate > 0 && channels > 0 && samplingRate > 0 && volume < 0
  {
    if bitrate <= 0 then Some(InvalidBitrate(bitrate))
    else if channels <= 0 then Some(InvalidChannels(channels))
    else if samplingRate <= 0 then Some(InvalidSamplingRate(samplingRate))
    else if volume < 0 then Some(InvalidVolume(volume))
    else None
  }

  /** The builder's defaults pass the constructor's checks. */
  lemma DefaultsAcceptable()
    ensures Check(DEFAULT_BITRATE, DEFAULT_CHANNELS, DEFAULT_SAMPLING_RATE, DEFAULT_VOLUME).None?
  {
  }

  class ExtractionSetting {
    const codec: string
    const outputFormat: string
    const inputFormat: string
    var bitrate: int
    var channels: int
    var samplingRate: int
    var volume: int

    function Get(): Properties
      reads this
    {
      Properties(codec, outputFormat, inputFormat, bitrate, channels, samplingRate, volume)
    }

    /** The object the constructor builds once its checks have passed. */
    constructor(bitrate: int, channels: int, samplingRate: int, volume: int)
      requires Acceptable(bitrate, channels, samplingRate, volume)
      ensures Get() == Properties(CODEC, OUTPUT_FORMAT, INPUT_FORMAT, bitrate, channels, samplingRate, volume)
    {
      codec := CODEC;
      outputFormat := OUTPUT_FORMAT;
      inputFormat := INPUT_FORMAT;
      this.bitrate := bitrate;
      this.channels := channels;
      this.samplingRate := samplingRate;
      this.volume := volume;
    }

    /** `new ExtractionSetting(…)`: a fresh setting, or the error of the first failing check. */
    static method Create(bitrate: int, channels: int, samplingRate: int, volume: int)
      returns (r: Result<ExtractionSetting, SettingError>)
      ensures r.Err? <==> Check(bitrate, channels, samplingRate, volume).Some?
      ensures r.Err? ==> r.error == Check(bitrate, channels, samplingRate, volume).value
      ensures r.Ok? ==> (fresh(r.value) &&
        r.value.Get() == Properties(CODEC, OUTPUT_FORMAT, INPUT_FORMAT, bitrate, channels, samplingRate, volume))
    {
      var failure := Check(bitrate, channels, samplingRate, volume);
      if failure.Some? {
        return Err(failure.value);
      }
      var s := new ExtractionSetting(bitrate, channels, samplingRate, volume);
      return Ok(s);
    }

    /** `setBitrate`: stored as given, whatever it is. */
    method SetBitrate(bitrate: int)
      modifies this
      ensures Get() == old(Get()).(bitrate := bitrate)
    {
      this.bitrate := bitrate;
    }

    /** `setChannels`: stored as given. */
    method SetChannels(channels: int)
      modifies this
      ensures Get() == old(Get()).(channels := channels)
    {
      this.channels := channels;
    }

    /** `setSamplingRate`: stored as given. */
    method SetSamplingRate(samplingRate: int)
      modifies this
      ensures Get() == old(Get()).(samplingRate := samplingRate)
    {
      this.samplingRate := samplingRate;
    }

    /** `setVolume`: stored as given. */
    method SetVolume(volume: int)
      modifies this
      ensures Get() == old(Get()).(volume := volume)
    {
      this.volume := volume;
    }

    /** `equals`: another setting whose seven properties are all the same. */
    method Equals(obj: ExtractionSetting?) returns (eq: bool)
      ensures eq <==> obj != null && obj.Get() == Get()
    {
      if obj == null {
        return false;
      }
      eq := obj.codec == codec && obj.outputFormat == outputFormat && obj.inputFormat == inputFormat &&
        obj.bitrate == bitrate && obj.channels == channels &&
        obj.samplingRate == samplingRate && obj.volume == volume;
    }
  }

  /**
   * The setters check nothing: any one number of a valid setting overwritten with a value
   * its check refuses gives properties the constructor rejects, with that number's error.
   */
  lemma SettersBypassChecks(p: Properties, v: int)
    requires Acceptable(p.bitrate, p.channels, p.samplingRate, p.volume)
    ensures v <= 0 ==> Check(v, p.channels, p.samplingRate, p.volume) == Some(InvalidBitrate(v))
    ensures v <= 0 ==> Check(p.bitrate, v, p.samplingRate, p.volume) == Some(InvalidChannels(v))
    ensures v <= 0 ==> Check(p.bitrate, p.channels, v, p.volume) == Some(InvalidSamplingRate(v))
    ensures v < 0 ==> Check(p.bitrate, p.channels, p.samplingRate, v) == Some(InvalidVolume(v))
  {
  }

  /** `ExtractionSetting.Builder`. */
  class Builder {
    var bitrate: int
    var channels: int
    var samplingRate: int
    var volume: int

    constructor()
      ensures bitrate == DEFAULT_BITRATE && channels == DEFAULT_CHANNELS
      ensures samplingRate == DEFAULT_SAMPLING_RATE && volume == DEFAULT_VOLUME
    {
      bitrate := DEFAULT_BITRATE;
      channels := DEFAULT_CHANNELS;
      samplingRate := DEFAULT_SAMPLING_RATE;
      volume := DEFAULT_VOLUME;
    }

    /** The setters return the same builder; the last value written to a field counts. */
    method SetBitrate(bitrate: int) returns (b: Builder)
      modifies this
      ensures b == this && this.bitrate == bitrate
      ensures channels == old(channels) && samplingRate == old(samplingRate) && volume == old(volume)
    {
      this.bitrate := bitrate;
      return this;
    }

    method SetChannels(channels: int) returns (b: Builder)
      modifies this
      ensures b == this && this.channels == channels
      ensures bitrate == old(bitrate) && samplingRate == old(samplingRate) && volume == old(volume)
    {
      this.channels := channels;
      return this;
    }

    method SetSamplingRate(samplingRate: int) returns (b: Builder)
      modifies this
      ensures b == this && this.samplingRate == samplingRate
      ensures bitrate == old(bitrate) && channels == old(channels) && volume == old(volume)
    {
      this.samplingRate := samplingRate;
      return this;
    }

    method SetVolume(volume: int) returns (b: Builder)
      modifies this
      ensures b == this && this.volume == volume
      ensures bitrate == old(bitrate) && channels == old(channels) && samplingRate == old(samplingRate)
    {
      this.volume := volume;
      return this;
    }

    /** `build`: the checking constructor on the builder's values. */
    method Build() returns (r: Result<ExtractionSetting, SettingError>)
      ensures r.Err? <==> Check(bitrate, channels, samplingRate, volume).Some?
      ensures r.Err? ==> r.error == Check(bitrate, channels, samplingRate, volume).value
      ensures r.Ok? ==> (fresh(r.value) &&
        r.value.Get() == Properties(CODEC, OUTPUT_FORMAT, INPUT_FORMAT, bitrate, channels, samplingRate, volume))
    {
      r := ExtractionSetting.Create(bitrate, channels, samplingRate, volume);
    }
  }

  /** A builder left at its defaults always builds. */
  method BuildDefaults() returns (s: ExtractionSetting)
    ensures s.Get() == Properties(CODEC, OUTPUT_FORMAT, INPUT_FORMAT,
      DEFAULT_BITRATE, DEFAULT_CHANNELS, DEFAULT_SAMPLING_RATE, DEFAULT_VOLUME)
  {
    var b := new Builder();
    var r := b.Build();
    DefaultsAcceptable();
    s := r.value;
  }
}
