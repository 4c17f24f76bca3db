/** The RTCM 3 frame format as the splitter reads it (transport layer, section 4 of RTCM 10403). */
module Frames {
  import opened Crc24

  const SYNC: byte := 0xD3
  const MAX_RTCM_FRAME: nat := 1029
  const MAX_PAYLOAD: nat := 1023

  /** The ten low bits of the two header bytes. */
  function PayloadLength(b1: byte, b2: byte): (len: nat)
    ensures len == b1 as nat % 4 * 256 + b2 as nat <= MAX_PAYLOAD
  {
    TwoBytes(b1 % 4, b2);
    Or(b1 as nat % 4 * 256, b2 as nat)
  }

  /** Header, payload and checksum together. */
  function TotalLength(c: seq<byte>): (n: nat)
    requires |c| >= 3
    ensures 6 <= n <= MAX_RTCM_FRAME
  {
    3 + PayloadLength(c[1], c[2]) + 3
  }

  datatype Verdict = Partial | RejectLength | RejectCrc | Complete

  /** What the first bytes of c, read as a candidate frame, amount to. */
  function Judge(c: seq<byte>): Verdict {
    if |c| < 3 then Partial
    else if PayloadLength(c[1], c[2]) == 0 then RejectLength
    else if |c| < TotalLength(c) then Partial
    else if CrcMatches(c[..TotalLength(c)]) then Complete
    else RejectCrc
  }

  predicate IsFrame(f: seq<byte>) {
    && 7 <= |f| <= MAX_RTCM_FRAME
    && f[0] == SYNC
    && PayloadLength(f[1], f[2]) == |f| - 6
    && CrcMatches(f)
  }

  /** The frame carrying a payload. */
  function Encode(payload: seq<byte>): (f: seq<byte>)
    requires 1 <= |payload| <= MAX_PAYLOAD
    ensures |f| == |payload| + 6
  {
    var m := [SYNC, |payload| / 256, |payload| % 256] + payload;
    CrcFits(m);
    m + Trailer(Crc(m))
  }

  lemma EncodeIsFrame(payload: seq<byte>)
    requires 1 <= |payload| <= MAX_PAYLOAD
    ensures IsFrame(Encode(payload)) && Encode(payload)[3..|payload| + 3] == payload
  {
    LengthRoundTrip(|payload|);
    TrailerReceived([SYNC, |payload| / 256, |payload| % 256] + payload);
    hide Crc, CrcMatches;
  }

  lemma LengthRoundTrip(n: nat)
    requires n <= MAX_PAYLOAD
    ensures n / 256 < 256 && PayloadLength(n / 256, n % 256) == n
  {}

  /** A verdict depends on the candidate's own bytes only. */
  lemma JudgePrefix(c: seq<byte>, rest: seq<byte>)
    requires Judge(c) != Partial
    ensures Judge(c + rest) == Judge(c)
    ensures Judge(c) == RejectLength || (|c| >= TotalLength(c) == TotalLength(c + rest))
  {
    assert (c + rest)[1] == c[1] && (c + rest)[2] == c[2];
    if Judge(c) != RejectLength {
      assert (c + rest)[..TotalLength(c)] == c[..TotalLength(c)];
    }
  }

  lemma FrameCompletes(f: seq<byte>, rest: seq<byte>)
    requires IsFrame(f)
    ensures Judge(f + rest) == Complete && TotalLength(f + rest) == |f|
  {
    assert f[..TotalLength(f)] == f;
    JudgePrefix(f, rest);
  }
}
