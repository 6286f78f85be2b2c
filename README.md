# Sticker sets of Telegram Desktop, modelled in Dafny

This project models the sticker-set header of Telegram Desktop
(`Telegram/SourceFiles/chat_helpers/stickers.h`):

- the reserved set ids: `DefaultSetId` and the seven sentinels packed at the
  top of the 64-bit range (`CustomSetId`, `RecentSetId`, `NoneSetId`,
  `CloudRecentSetId`, `FeaturedSetId`, `FavedSetId`, `MegagroupSetId`);
- the `Set` record, its nine-argument constructor, and the `Sets` map from
  set id to set, with the rule from the header's comments that the
  panel-only ids (recent, none, featured) never appear as keys;
- `inputSetId`, which chooses how a set is referred to in a request to the
  server: by id and access hash when both are nonzero, otherwise by short name.

Everything here is pure, so the model is datatypes, functions and lemmas.
`mtp_types.dfy` (module `MtpTypes`) holds the machine integer types and the
two `MTPInputStickerSet` forms. `stickers.dfy` (module `Stickers`) holds the
rest.

Modelling choices:

- `uint64` and `int32` are newtypes over `int` with their exact ranges. The
  C++ `int count` is taken as 32 bits. `TimeId` is `int32`.
- `MTPDstickerSet::Flags` is a `bv32` bit set.
- `ImagePtr`, `DocumentData*` and `EmojiPtr` are opaque handles, compared
  by identity only.
- `QString` is a Dafny `string`.
- `DefaultSetId` has type `int` in C++ (`constexpr auto = 0`). It is modelled
  as the `uint64` value 0, which is what it becomes wherever it is compared
  with a set id.
- The serialisers `MTP_long`, `MTP_string`, `MTP_inputStickerSetID` and
  `MTP_inputStickerSetShortName` are the constructors `ByID` and
  `ByShortName` of `InputStickerSet`. They are not byte encoders here.
- The `Set` constructor becomes the function `NewSet`. The datatype
  constructor `Set(...)` with all thirteen fields is the record value itself.
  `NewSet` fills the four collections with empty values.

## Model

| member | source | states |
|---|---|---|
| `Stickers.ReservedSetIdsDistinct` | Telegram/SourceFiles/chat_helpers/stickers.h:32-39 | The eight reserved ids are pairwise distinct. The default id is 0. Every sentinel is nonzero and lies in the top seventeen values of the 64-bit range. The panel-only ids are a proper subset of the reserved ids. |
| `Stickers.NewSet` | Telegram/SourceFiles/chat_helpers/stickers.h:47-78 | The constructor stores each of its nine arguments unchanged in the field of the same name. `stickers`, `dates`, `covers` and `emoji` start empty. |
| `Stickers.ConstructibleIffNoContents` | Telegram/SourceFiles/chat_helpers/stickers.h:47-78 | A set is the result of some constructor call exactly when its four collections are empty. Such a set is rebuilt by the constructor from its own header fields. |
| `Stickers.NewSetInjective` | Telegram/SourceFiles/chat_helpers/stickers.h:57-65 | Equal constructor results imply equal arguments, field by field: no argument is dropped or merged. |
| `Stickers.ValidSetsExcludesPanelIds` | Telegram/SourceFiles/chat_helpers/stickers.h:34-37 | A `Sets` map is valid exactly when none of `RecentSetId`, `NoneSetId` and `FeaturedSetId` is a key, as their comments require. |
| `Stickers.ValidSetsUpdate` | Telegram/SourceFiles/chat_helpers/stickers.h:80 | On a valid map, storing a set under a key keeps it valid exactly when the key is not panel-only. Removing any key keeps it valid. |
| `Stickers.ValidSetsAdmitsStoredSentinels` | Telegram/SourceFiles/chat_helpers/stickers.h:33-39 | The rule forbids only the three panel-only ids. A valid map can hold the custom, cloud-recent, faved and megagroup sets all at once. |
| `Stickers.InputSetId` | Telegram/SourceFiles/chat_helpers/stickers.h:82-87 | The result is the by-ID form exactly when both the id and the access hash are nonzero, and it then carries those two values. Otherwise the result is the by-short-name form carrying the set's short name. |
| `Stickers.InputSetIdUsesOnlyIdentity` | Telegram/SourceFiles/chat_helpers/stickers.h:82-87 | Two sets that agree on id, access hash and short name get the same reference, whatever their title, count, hash, flags, date, thumbnail or collections. |
| `Stickers.DefaultSetIdUsesShortName` | Telegram/SourceFiles/chat_helpers/stickers.h:83-86 | A set with the default id 0 is always referred to by its short name, whatever its access hash. |
| `Stickers.InputSetIdCollision` | Telegram/SourceFiles/chat_helpers/stickers.h:82-87 | Two sets get the same reference exactly when both have a usable id and agree on id and access hash, or when neither has one and they agree on the short name. |
| `Stickers.InputSetIdImage` | Telegram/SourceFiles/chat_helpers/stickers.h:82-87 | The references produced are exactly the producible ones. A by-ID reference never carries a zero id or access hash. Every pair of nonzero values and every short name is produced by some set. |
| `Stickers.NewSetInputSetId` | Telegram/SourceFiles/chat_helpers/stickers.h:57-86 | A freshly constructed set is referred to by the id, access hash or short name passed to the constructor. |

## Left out

- `Telegram/SourceFiles/mtproto/mtp_tcp_socket.h` (`TcpSocket`): only
  declarations are visible. Its behaviour is network I/O over `QTcpSocket`,
  a proxy connection and thread affinity, none of which has a body to model.
- The declared-only sticker operations (`ApplyArchivedResult`,
  `InstallLocally`, `UndoInstallLocally`, `IsFaved`, `SetFaved`,
  `SetsReceived`, `SpecialSetReceived`, `FeaturedSetsReceived`,
  `GifsReceived`, `GetListByEmoji`, `GetEmojiListFromSet`, `FeedSet`,
  `FeedSetFull`, `NewSetReceived`, `GetSetTitle`, `GetRecentPack`): their
  bodies are not part of this model, so any model would be invented behaviour.
- The Lottie player and thumbnail helpers and `LottieSize`: animation
  rendering over foreign renderer objects.
- `ThumbnailSource`: file loading, image decoding and cache bytes.
- `Order` and `SavedGifs`: type aliases that no visible code uses.
- The byte encoding of `MTP_long`, `MTP_string` and the two
  `MTPInputStickerSet` constructors. The TL serialisation is not part of
  this model.
- `ValidSets`: the source never checks this rule. It states what the
  comments promise of the code that fills `Sets`, and the visible code
  does not establish it.
- The field initialisers on lines 67-73 (`id = 0` and so on) are not
  modelled. The only constructor overwrites every one of them.
