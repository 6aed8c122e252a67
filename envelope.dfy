/**
 * The 128-byte radio frame shared by `packets.c` and `radio_commands.c`: a
 * four-byte header (version, sender, target, command id) followed by a
 * 124-byte payload, and the two guard checks both files run before copying a
 * frame. The two files differ only in the exclusive upper bound on the command
 * id, which is a parameter here.
 */
module Envelope {
  import opened Bytes

  const FRAME_SIZE: nat := 128
  const HEADER_BYTES: nat := 4
  const PAYLOAD_BYTES: nat := FRAME_SIZE - HEADER_BYTES
  const SUPPORTED_VERSION: u8 := 1

  /** `enum pack_error_e`, in declaration order. */
  datatype PackError = ErrNone | ErrInvalidArg | ErrBufferTooSmall | ErrUnsupportedVersion | ErrInvalidCmdId

  function ErrorCode(e: PackError): (code: u8)
    ensures code == 0 <==> e == ErrNone
    ensures code <= 4
  {
    match e
    case ErrNone => 0
    case ErrInvalidArg => 1
    case ErrBufferTooSmall => 2
    case ErrUnsupportedVersion => 3
    case ErrInvalidCmdId => 4
  }

  datatype Header = Header(version: u8, sender: u8, target: u8, commandId: u8)

  /** The typed view of a frame: the generic packet struct. */
  datatype Frame = Frame(header: Header, payload: seq<u8>)

  predicate WellSized(f: Frame) {
    |f.payload| == PAYLOAD_BYTES
  }

  /** The frame's memory image; the struct has no padding, so this is what `memcpy` copies. */
  function Encode(f: Frame): (b: seq<u8>)
    requires WellSized(f)
    ensures |b| == FRAME_SIZE
    ensures b[0] == f.header.version && b[3] == f.header.commandId
    ensures b[HEADER_BYTES..] == f.payload
  {
    [f.header.version, f.header.sender, f.header.target, f.header.commandId] + f.payload
  }

  function HeaderOf(b: seq<u8>): (h: Header)
    requires |b| >= HEADER_BYTES
    ensures h.version == b[0] && h.sender == b[1] && h.target == b[2] && h.commandId == b[3]
  {
    Header(b[0], b[1], b[2], b[3])
  }

  function Decode(b: seq<u8>): (f: Frame)
    requires |b| == FRAME_SIZE
    ensures WellSized(f)
  {
    Frame(HeaderOf(b), b[HEADER_BYTES..])
  }

  /** Encoding is injective: the typed view is recovered from the image. */
  lemma DecodeEncode(f: Frame)
    requires WellSized(f)
    ensures Decode(Encode(f)) == f
  {
  }

  /** Every 128-byte image is the encoding of exactly one frame. */
  lemma EncodeDecode(b: seq<u8>)
    requires |b| == FRAME_SIZE
    ensures Encode(Decode(b)) == b
  {
    assert Encode(Decode(b))[..HEADER_BYTES] == b[..HEADER_BYTES];
  }

  /**
   * The argument guard (`CHECK_ARGS`): a missing frame or buffer is reported
   * before the buffer size is looked at.
   */
  function CheckArgs(framePresent: bool, bufPresent: bool, bufSize: nat): (e: PackError)
    ensures e == ErrNone <==> framePresent && bufPresent && bufSize >= FRAME_SIZE
    ensures !framePresent || !bufPresent ==> e == ErrInvalidArg
    ensures e == ErrInvalidArg || e == ErrBufferTooSmall || e == ErrNone
  {
    if !framePresent || !bufPresent then ErrInvalidArg
    else if bufSize < FRAME_SIZE then ErrBufferTooSmall
    else ErrNone
  }

  /**
   * The header guard (`CHECK_PACKET` / `CHECK_CMD`): the version is checked
   * before the command id, which must lie strictly between 0 and `maxId`.
   */
  function CheckHeader(h: Header, maxId: nat): (e: PackError)
    ensures e == ErrNone <==> h.version == SUPPORTED_VERSION && 0 < h.commandId < maxId
    ensures h.version != SUPPORTED_VERSION ==> e == ErrUnsupportedVersion
    ensures e == ErrUnsupportedVersion || e == ErrInvalidCmdId || e == ErrNone
  {
    if h.version != SUPPORTED_VERSION then ErrUnsupportedVersion
    else if h.commandId <= 0 || h.commandId >= maxId then ErrInvalidCmdId
    else ErrNone
  }

  /** What a pack returns: the argument guard, then the header guard on the frame to send. */
  function PackOutcome(frame: Option<seq<u8>>, bufPresent: bool, bufSize: nat, maxId: nat): (e: PackError)
    requires frame.Some? ==> |frame.value| == FRAME_SIZE
    ensures e == ErrNone <==>
      frame.Some? && bufPresent && bufSize >= FRAME_SIZE && CheckHeader(HeaderOf(frame.value), maxId) == ErrNone
  {
    var args := CheckArgs(frame.Some?, bufPresent, bufSize);
    if args != ErrNone then args else CheckHeader(HeaderOf(frame.value), maxId)
  }

  /**
   * What an unpack returns: the argument guard, then the header guard on the
   * bytes just copied out of the buffer.
   */
  function UnpackOutcome(buf: Option<seq<u8>>, bufSize: nat, framePresent: bool, maxId: nat): (e: PackError)
    requires buf.Some? ==> bufSize <= |buf.value|
    ensures e == ErrNone <==>
      buf.Some? && framePresent && bufSize >= FRAME_SIZE && CheckHeader(HeaderOf(buf.value), maxId) == ErrNone
  {
    var args := CheckArgs(framePresent, buf.Some?, bufSize);
    if args != ErrNone then args else CheckHeader(HeaderOf(buf.value), maxId)
  }

  /**
   * The round trip: whatever a successful pack leaves in the first 128 bytes
   * of a buffer unpacks without error, and the unpacked frame is the one that
   * was packed.
   */
  lemma PackThenUnpack(frame: seq<u8>, buf: seq<u8>, bufSize: nat, maxId: nat)
    requires |frame| == FRAME_SIZE && bufSize <= |buf|
    requires PackOutcome(Some(frame), true, bufSize, maxId) == ErrNone
    ensures UnpackOutcome(Some(frame + buf[FRAME_SIZE..]), bufSize, true, maxId) == ErrNone
    ensures (frame + buf[FRAME_SIZE..])[..FRAME_SIZE] == frame
  {
    var sent := frame + buf[FRAME_SIZE..];
    assert HeaderOf(sent) == HeaderOf(frame);
  }
}
