/** Sticker sets as the desktop client keeps them: the reserved set ids, the
    `Set` record with its constructor, the `Sets` map and the choice of how a
    set is referred to when it is sent to the server. */
module Stickers {
  import opened MtpTypes

  // ---------------------------------------------------------------------
  // Reserved set ids
  // ---------------------------------------------------------------------

  /** Id of a set before the server assigned one; kept for old local data. */
  const DefaultSetId: uint64 := 0
  /** The user's custom set. */
  const CustomSetId: uint64 := 0xFFFF_FFFF_FFFF_FFFF
  /** Recently used stickers; a panel section only, never a key of `Sets`. */
  const RecentSetId: uint64 := 0xFFFF_FFFF_FFFF_FFFE
  /** The empty panel section; never a key of `Sets`. */
  const NoneSetId: uint64 := 0xFFFF_FFFF_FFFF_FFFD
  /** Recent stickers stored on the server. */
  const CloudRecentSetId: uint64 := 0xFFFF_FFFF_FFFF_FFFC
  /** Featured sets; a panel section only, never a key of `Sets`. */
  const FeaturedSetId: uint64 := 0xFFFF_FFFF_FFFF_FFFB
  /** Faved stickers stored on the server. */
  const FavedSetId: uint64 := 0xFFFF_FFFF_FFFF_FFFA
  /** The set a megagroup administrator is choosing for the group. */
  const MegagroupSetId: uint64 := 0xFFFF_FFFF_FFFF_FFEF

  /** Every id with a fixed meaning. */
  const ReservedSetIds: set<uint64> :=
    {DefaultSetId, CustomSetId, RecentSetId, NoneSetId,
     CloudRecentSetId, FeaturedSetId, FavedSetId, MegagroupSetId}

  /** Ids that name a section of the emoji/stickers panel and not a stored set. */
  const PanelOnlySetIds: set<uint64> := {RecentSetId, NoneSetId, FeaturedSetId}

  /** The seven sentinels are distinct from each other and from the default id,
      and all of them sit in the top seventeen values of the 64-bit range. */
  lemma ReservedSetIdsDistinct()
    ensures |ReservedSetIds| == 8
    ensures DefaultSetId == 0
    ensures forall x :: x in ReservedSetIds && x != DefaultSetId ==>
              x != 0 && x as int >= 0x1_0000_0000_0000_0000 - 17
    ensures PanelOnlySetIds < ReservedSetIds
  {
  }

  // ---------------------------------------------------------------------
  // The Set record
  // ---------------------------------------------------------------------

  /** `ImagePtr`: a shared handle to a thumbnail image, compared by identity. */
  datatype ImagePtr = ImagePtr(handle: nat)
  /** `DocumentData*`: a sticker document, compared by address. */
  datatype DocumentPtr = DocumentPtr(address: nat)
  /** `EmojiPtr`: an entry of the emoji table, compared by address. */
  datatype EmojiPtr = EmojiPtr(address: nat)

  /** `Pack`: the stickers of a set, in order. */
  type Pack = seq<DocumentPtr>
  /** `ByEmojiMap`: the stickers of a set grouped by the emoji they stand for. */
  type ByEmojiMap = map<EmojiPtr, Pack>

  /** One sticker set as the client keeps it. */
  datatype Set = Set(
    id: uint64,
    access: uint64,
    title: string,
    shortName: string,
    count: int32,
    hash: int32,
    flags: StickerSetFlags,
    installDate: TimeId,
    thumbnail: ImagePtr,
    stickers: Pack,
    dates: seq<TimeId>,
    covers: Pack,
    emoji: ByEmojiMap)

  /** The set has none of the contents filled in later by the loaders. */
  predicate HasNoContents(s: Set)
  {
    s.stickers == [] && s.dates == [] && s.covers == [] && s.emoji == map[]
  }

  /** The nine-argument constructor: every argument is stored in the field of
      the same name and the four collections start empty. */
  function NewSet(
    id: uint64,
    access: uint64,
    title: string,
    shortName: string,
    count: int32,
    hash: int32,
    flags: StickerSetFlags,
    installDate: TimeId,
    thumbnail: ImagePtr): (s: Set)
    ensures s.id == id && s.access == access
    ensures s.title == title && s.shortName == shortName
    ensures s.count == count && s.hash == hash && s.flags == flags
    ensures s.installDate == installDate && s.thumbnail == thumbnail
    ensures s.stickers == [] && s.dates == [] && s.covers == [] && s.emoji == map[]
  {
    Set(id, access, title, shortName, count, hash, flags, installDate, thumbnail,
        [], [], [], map[])
  }

  /** `s` is what the constructor returns for some arguments. */
  ghost predicate Constructible(s: Set)
  {
    exists id, access, title, shortName, count, hash, flags, installDate, thumbnail ::
      NewSet(id, access, title, shortName, count, hash, flags, installDate, thumbnail) == s
  }

  /** The constructor builds exactly the sets that have no contents, and it
      builds each of them from that set's own header fields. */
  lemma ConstructibleIffNoContents(s: Set)
    ensures Constructible(s) <==> HasNoContents(s)
    ensures HasNoContents(s) ==>
      NewSet(s.id, s.access, s.title, s.shortName, s.count, s.hash, s.flags,
             s.installDate, s.thumbnail) == s
  {
    if HasNoContents(s) {
      var t := NewSet(s.id, s.access, s.title, s.shortName, s.count, s.hash,
                      s.flags, s.installDate, s.thumbnail);
      assert t == s;
    }
  }

  /** Two constructor calls give the same set only for the same arguments. */
  lemma NewSetInjective(
    id: uint64, access: uint64, title: string, shortName: string, count: int32,
    hash: int32, flags: StickerSetFlags, installDate: TimeId, thumbnail: ImagePtr,
    id': uint64, access': uint64, title': string, shortName': string, count': int32,
    hash': int32, flags': StickerSetFlags, installDate': TimeId, thumbnail': ImagePtr)
    requires NewSet(id, access, title, shortName, count, hash, flags, installDate, thumbnail)
          == NewSet(id', access', title', shortName', count', hash', flags', installDate', thumbnail')
    ensures id == id' && access == access' && title == title' && shortName == shortName'
    ensures count == count' && hash == hash' && flags == flags'
    ensures installDate == installDate' && thumbnail == thumbnail'
  {
  }

  // ---------------------------------------------------------------------
  // The Sets map
  // ---------------------------------------------------------------------

  /** `Sets`: every stored sticker set, keyed by set id. */
  type Sets = map<uint64, Set>

  /** No key of the map is one of the panel-only ids. */
  predicate ValidSets(sets: Sets)
  {
    sets.Keys !! PanelOnlySetIds
  }

  /** A valid map holds none of the three panel-only ids, and a map that holds
      none of them is valid. */
  lemma ValidSetsExcludesPanelIds(sets: Sets)
    ensures ValidSets(sets) <==>
      RecentSetId !in sets && NoneSetId !in sets && FeaturedSetId !in sets
  {
  }

  /** Storing a set under a key that is not panel-only keeps the map valid,
      storing one under a panel-only key breaks it, and removing a key never
      breaks it. */
  lemma ValidSetsUpdate(sets: Sets, key: uint64, s: Set)
    requires ValidSets(sets)
    ensures ValidSets(sets[key := s]) <==> key !in PanelOnlySetIds
    ensures ValidSets(sets - {key})
  {
  }

  /** The restriction is no stronger than the comments ask: the custom, cloud
      recent, faved and megagroup sets may all be stored together in a valid map. */
  lemma ValidSetsAdmitsStoredSentinels(custom: Set, cloudRecent: Set, faved: Set, megagroup: Set)
    ensures exists sets: Sets ::
      ValidSets(sets) &&
      CustomSetId in sets && CloudRecentSetId in sets &&
      FavedSetId in sets && MegagroupSetId in sets
  {
    var sets := map[CustomSetId := custom, CloudRecentSetId := cloudRecent,
                    FavedSetId := faved, MegagroupSetId := megagroup];
    assert sets.Keys == {CustomSetId, CloudRecentSetId, FavedSetId, MegagroupSetId};
    assert ValidSets(sets);
  }

  // ---------------------------------------------------------------------
  // Referring to a set on the wire
  // ---------------------------------------------------------------------

  /** `inputSetId`: a set with both a server id and an access hash is referred
      to by those two values; any other set by its short name. */
  function InputSetId(s: Set): (r: InputStickerSet)
    ensures r.ByID? <==> s.id != 0 && s.access != 0
    ensures r.ByID? ==> r.id == s.id && r.accessHash == s.access
    ensures r.ByShortName? ==> r.shortName == s.shortName
  {
    if s.id != 0 && s.access != 0 then
      ByID(s.id, s.access)
    else
      ByShortName(s.shortName)
  }

  /** The reference is built from the id, the access hash and the short name
      only: the title, count, hash, flags, date, thumbnail and contents of the
      set never influence it. */
  lemma InputSetIdUsesOnlyIdentity(a: Set, b: Set)
    requires a.id == b.id && a.access == b.access && a.shortName == b.shortName
    ensures InputSetId(a) == InputSetId(b)
  {
  }

  /** A set that still has the default id is always referred to by short name,
      whatever its access hash. */
  lemma DefaultSetIdUsesShortName(s: Set)
    requires s.id == DefaultSetId
    ensures InputSetId(s) == ByShortName(s.shortName)
  {
  }

  /** When two sets are indistinguishable on the wire: both have a usable id
      and agree on id and access hash, or neither has one and they agree on
      the short name. */
  lemma InputSetIdCollision(a: Set, b: Set)
    ensures InputSetId(a) == InputSetId(b) <==>
      || (a.id != 0 && a.access != 0 && a.id == b.id && a.access == b.access)
      || ((a.id == 0 || a.access == 0) && (b.id == 0 || b.access == 0) &&
          a.shortName == b.shortName)
  {
  }

  /** The references the client produces are exactly the producible ones: a
      by-ID reference never has a zero id or access hash, every pair of nonzero
      values is reached, and every short name is reached. */
  lemma InputSetIdImage(r: InputStickerSet)
    ensures (exists s :: InputSetId(s) == r) <==> Producible(r)
  {
    if Producible(r) {
      var s := match r
        case ByID(id, accessHash) =>
          NewSet(id, accessHash, "", "", 0, 0, 0, 0, ImagePtr(0))
        case ByShortName(name) =>
          NewSet(0, 0, "", name, 0, 0, 0, 0, ImagePtr(0));
      assert InputSetId(s) == r;
    }
  }

  /** A set freshly built by the constructor is referred to by exactly the
      values passed for its id, access hash and short name. */
  lemma NewSetInputSetId(
    id: uint64, access: uint64, title: string, shortName: string, count: int32,
    hash: int32, flags: StickerSetFlags, installDate: TimeId, thumbnail: ImagePtr)
    ensures InputSetId(NewSet(id, access, title, shortName, count, hash, flags,
                              installDate, thumbnail))
         == if id != 0 && access != 0 then ByID(id, access) else ByShortName(shortName)
  {
  }
}
