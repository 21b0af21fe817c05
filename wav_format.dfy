/** What Python's `wave` module reports about a RIFF WAVE file. Parsing the
    header is left to that library; the model receives its outcome. */
module WavFormat {

  /** The header fields the speech utilities read: channel count, sample width
      in bytes, frame rate in Hz and the number of frames. */
  datatype WavParams = WavParams(channels: nat, sampleWidth: nat, frameRate: nat, frames: nat)

  /** Outcome of `wave.open(path, 'rb')`: the parameters, or the message of the
      exception it raised (`wave.Error`, a missing file, a truncated header). */
  datatype HeaderRead = Parsed(params: WavParams) | Unreadable(message: string)
}
