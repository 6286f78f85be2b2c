/** Machine integer widths and the wire-level values that the sticker code
    hands to the MTProto serialisers. The serialisers themselves are opaque:
    a TL constructor is modelled as a datatype constructor, not as bytes. */
module MtpTypes {

  /** `uint64`: set ids and access hashes. */
  newtype uint64 = x: int | 0 <= x < 0x1_0000_0000_0000_0000

  /** `int32`: hashes, counts (`int` on every supported platform) and `TimeId`. */
  newtype int32 = x: int | -0x8000_0000 <= x < 0x8000_0000

  /** `TimeId` is a 32-bit signed count of seconds. */
  type TimeId = int32

  /** `MTPDstickerSet::Flags`: a bit set over a 32-bit word. */
  type StickerSetFlags = bv32

  /** `MTPInputStickerSet`, restricted to the two forms the sticker code builds:
      `inputStickerSetID id:long access_hash:long` and
      `inputStickerSetShortName short_name:string`. */
  datatype InputStickerSet =
    | ByID(id: uint64, accessHash: uint64)
    | ByShortName(shortName: string)

  /** A reference the sticker code can produce: the by-ID form never carries
      a zero id or a zero access hash. */
  predicate Producible(r: InputStickerSet)
  {
    r.ByID? ==> r.id != 0 && r.accessHash != 0
  }
}
