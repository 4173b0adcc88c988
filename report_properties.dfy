/** Properties of report decoding that the viewer's tests and declarations
    promise: exact spellings, type-only numeric bounds, required fields. */
module ReportProperties {
  import opened Wrappers
  import opened DmarcReport
  import opened ReportDecoding

  /** Every enumeration accepts exactly one token per variant. */
  lemma AllEnumerationsAreTokenCodecs()
    ensures IsTokenCodec(EncodeAlignment, DecodeAlignment)
    ensures IsTokenCodec(EncodeDisposition, DecodeDisposition)
    ensures IsTokenCodec(EncodeDmarcResult, DecodeDmarcResult)
    ensures IsTokenCodec(EncodePolicyOverride, DecodePolicyOverride)
    ensures IsTokenCodec(EncodeDkimResult, DecodeDkimResult)
    ensures IsTokenCodec(EncodeSpfScope, DecodeSpfScope)
    ensures IsTokenCodec(EncodeSpfResult, DecodeSpfResult)
  {
    AlignmentCodec();
    DispositionCodec();
    DmarcResultCodec();
    PolicyOverrideCodec();
    DkimResultCodec();
    SpfScopeCodec();
    SpfResultCodec();
  }

  /** No second spelling is accepted: the full words for the alignment
      modes, and the snake_case form that `SoftFail` would have had. */
  lemma NoAlternativeSpellings()
    ensures DecodeAlignment("relaxed") == Option.None && DecodeAlignment("strict") == Option.None
    ensures DecodeAlignment("R") == Option.None
    ensures DecodeSpfResult("soft_fail") == Option.None
    ensures DecodeDkimResult("temp_error") == Option.None && DecodeDkimResult("temporary_error") == Option.None
  {}

  /** `pct` is bounded by its 8-bit type, not by 100. */
  lemma PctBoundedByTypeOnly()
    ensures DecodeUint8(Text("100")) == Success(100)
    ensures DecodeUint8(Text("255")) == Success(255)
    ensures DecodeUint8(Text("256")).Failure?
  {
    assert DigitsValue("100") == 100 by {
      assert "100"[..2] == "10" && "10"[..1] == "1" && "1"[..0] == "";
    }
    assert DigitsValue("255") == 255 by {
      assert "255"[..2] == "25" && "25"[..1] == "2" && "2"[..0] == "";
    }
    assert DigitsValue("256") == 256 by {
      assert "256"[..2] == "25" && "25"[..1] == "2" && "2"[..0] == "";
    }
  }

  /** The `u32` fields (the date range, a row's count) take every value of
      the type and reject the first one past it. */
  lemma Uint32BoundedByType()
    ensures DecodeUint32(Text(ShowNat(0xFFFF_FFFF))) == Success(0xFFFF_FFFF)
    ensures DecodeUint32(Text(ShowNat(0x1_0000_0000))) == Failure(InvalidNumber(ShowNat(0x1_0000_0000)))
  {
    ParseShowRoundTrip(0xFFFF_FFFF, 0x1_0000_0000);
    ParseShowOutOfRange(0x1_0000_0000, 0x1_0000_0000);
  }
}
