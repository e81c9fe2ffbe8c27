# Game catalog: the repository, the entry record and the form helpers

This project models the data core of a desktop game catalog. The catalog is
a list of game entries kept in memory and stored on disk as one JSON
document. The model covers these parts:

- **The entry record** (`Model`): `Game`, a mutable record of thirteen fields
  with three constructors and getters and setters. It is modelled as a class;
  its current value is the datatype `Entry`. Absent scalars are `None`. List
  fields are sequences, never null, because every list setter stores a copy and
  turns null into an empty list.
- **The document codec** (`Scanner`, `Codec`):
  - Reading finds every brace object with the game pattern and pulls each
    field out of it on its own with a per-field pattern.
  - Writing emits the fixed layout: `[`, the entries joined by `,` and a line
    break, then `]`. Each entry has thirteen indented field lines in a fixed
    order, `null` for an absent scalar and `[]` for an empty list.
  - The regular expressions are modelled by what they match, as scanners over
    the text: `Objects`, `Find`, `ValueAt`.
  - Each step-by-step procedure is a method proved equal to the function that
    specifies it: `ParseGamesFromJson`, `ParseGameFromJson`, `GameToJson`,
    `AppendJson*`, `WriteDocument`.
- **The round trip** (`RoundTrip`): loading what saving wrote gives back the
  same entries in the same order. This holds when their texts avoid the
  characters the patterns stop at, no text is literally `null`, and no number
  is negative.
- **The store** (`Repository.GameRepository`): the list of games with its
  checked edits (add, update, remove), the distinct-value aggregators, the
  release-year bounds, the filters and the two title sorts. Each loop is
  proved against a specification function in `Queries`. The properties of
  those functions are proved there: membership, no duplicates, sortedness,
  permutation, order preservation.
- **The form helpers** (`AddGame`): input validation, comma-separated lists,
  building a new entry from the form's texts, and the file-extension rule.

Supporting modules:

- `Base`: optional values and the `int` range.
- `Text`: the `String` and `Integer` operations the code relies on, which are
  `trim`, `lastIndexOf`, `split`, `compareToIgnoreCase`, `toString` and
  `parseInt` (on ASCII digits).
- `Sorting`: the stable sort behind `List.sort`.

Outside effects are parameters:

- Whether the file could be read is the boolean `readOk`.
- Whether the file could be written is the boolean `writeOk`.
- The text read is the string `content`.
- The current year is the integer `currentYear`.

## Model

Source paths are relative to the repository root.

| member | source | states |
|---|---|---|
| Model.ListOrEmpty | src/main/java/com/example/gamecatalog/model/Game.java:86-88 | a null list argument is stored as the empty list, any other as its contents |
| Model.Game.constructor | src/main/java/com/example/gamecatalog/model/Game.java:22-27 | the new record has four empty lists and every scalar absent |
| Model.Game.WithRequired | src/main/java/com/example/gamecatalog/model/Game.java:30-35 | title, developer and publisher as given, everything else as after the no-argument constructor |
| Model.Game.Full | src/main/java/com/example/gamecatalog/model/Game.java:38-55 | every field as given, each null list argument replaced by an empty list |
| Model.Game.GetTitle | src/main/java/com/example/gamecatalog/model/Game.java:58-60 | returns the title the record holds |
| Model.Game.SetTitle | src/main/java/com/example/gamecatalog/model/Game.java:62-64 | the title becomes the argument and no other field changes |
| Model.Game.GetDeveloper | src/main/java/com/example/gamecatalog/model/Game.java:66-68 | returns the developer the record holds |
| Model.Game.SetDeveloper | src/main/java/com/example/gamecatalog/model/Game.java:70-72 | the developer becomes the argument and no other field changes |
| Model.Game.GetPublisher | src/main/java/com/example/gamecatalog/model/Game.java:74-76 | returns the publisher the record holds |
| Model.Game.SetPublisher | src/main/java/com/example/gamecatalog/model/Game.java:78-80 | the publisher becomes the argument and no other field changes |
| Model.Game.GetGenres | src/main/java/com/example/gamecatalog/model/Game.java:82-84 | returns the genre list the record holds |
| Model.Game.SetGenres | src/main/java/com/example/gamecatalog/model/Game.java:86-88 | the genres become a copy of the argument, or empty for null; no other field changes |
| Model.Game.GetPlatforms | src/main/java/com/example/gamecatalog/model/Game.java:90-92 | returns the platform list the record holds |
| Model.Game.SetPlatforms | src/main/java/com/example/gamecatalog/model/Game.java:94-96 | the platforms become a copy of the argument, or empty for null; no other field changes |
| Model.Game.GetTranslators | src/main/java/com/example/gamecatalog/model/Game.java:98-100 | returns the translator list the record holds |
| Model.Game.SetTranslators | src/main/java/com/example/gamecatalog/model/Game.java:102-104 | the translators become a copy of the argument, or empty for null; no other field changes |
| Model.Game.GetSteamId | src/main/java/com/example/gamecatalog/model/Game.java:106-108 | returns the Steam ID the record holds |
| Model.Game.SetSteamId | src/main/java/com/example/gamecatalog/model/Game.java:110-112 | the Steam ID becomes the argument and no other field changes |
| Model.Game.GetReleaseYear | src/main/java/com/example/gamecatalog/model/Game.java:114-116 | returns the release year the record holds |
| Model.Game.SetReleaseYear | src/main/java/com/example/gamecatalog/model/Game.java:118-120 | the release year becomes the argument and no other field changes |
| Model.Game.GetLanguage | src/main/java/com/example/gamecatalog/model/Game.java:122-124 | returns the language the record holds |
| Model.Game.SetLanguage | src/main/java/com/example/gamecatalog/model/Game.java:126-128 | the language becomes the argument and no other field changes |
| Model.Game.GetRating | src/main/java/com/example/gamecatalog/model/Game.java:130-132 | returns the rating the record holds |
| Model.Game.SetRating | src/main/java/com/example/gamecatalog/model/Game.java:134-136 | the rating becomes the argument and no other field changes |
| Model.Game.GetTags | src/main/java/com/example/gamecatalog/model/Game.java:138-140 | returns the tag list the record holds |
| Model.Game.SetTags | src/main/java/com/example/gamecatalog/model/Game.java:142-144 | the tags become a copy of the argument, or empty for null; no other field changes |
| Model.Game.GetCoverImagePath | src/main/java/com/example/gamecatalog/model/Game.java:146-148 | returns the cover image path the record holds |
| Model.Game.SetCoverImagePath | src/main/java/com/example/gamecatalog/model/Game.java:150-152 | the cover image path becomes the argument and no other field changes |
| Model.Game.GetDescriptionPath | src/main/java/com/example/gamecatalog/model/Game.java:154-156 | returns what is stored in the `descrptionPath` field |
| Model.Game.SetDescriptionPath | src/main/java/com/example/gamecatalog/model/Game.java:158-160 | stores into the `descrptionPath` field, so the getter returns it; no other field changes |
| Text.Trim | src/main/java/com/example/gamecatalog/controller/AddGameController.java:119-121 | the result is empty exactly when every character is at most U+0020; otherwise it is the slice from the first to the last character above U+0020 |
| Text.TrimIdempotent | src/main/java/com/example/gamecatalog/controller/AddGameController.java:232-234 | trimming a trimmed text changes nothing |
| Text.LastIndexOf | src/main/java/com/example/gamecatalog/controller/AddGameController.java:274 | -1 exactly when the character does not occur; otherwise a position holding it with none after |
| Text.SplitJoin | src/main/java/com/example/gamecatalog/controller/AddGameController.java:232 | splitting the comma-joined pieces gives the pieces back when none holds a comma |
| Text.SplitAppend | src/main/java/com/example/gamecatalog/controller/AddGameController.java:232 | the pieces of two texts joined by a separator are the pieces of the first followed by the pieces of the second |
| Text.SplitChars | src/main/java/com/example/gamecatalog/controller/AddGameController.java:232 | every character of every piece occurs in the text that was split |
| Text.JoinSplit | src/main/java/com/example/gamecatalog/controller/AddGameController.java:232 | joining the pieces of a split with the separator gives the text back |
| Text.CompareIgnoreCaseSign | src/main/java/com/example/gamecatalog/repository/GameRepository.java:457 | `compareToIgnoreCase(a, b) <= 0` exactly when the case-folded texts are in lexicographic order, and the result is 0 exactly when they are equal |
| Text.CompareIgnoreCaseAntisymmetric | src/main/java/com/example/gamecatalog/repository/GameRepository.java:457 | swapping the operands negates the comparison |
| Text.JavaParseInt | src/main/java/com/example/gamecatalog/controller/AddGameController.java:131 | a result is always within the `int` range; a digit string parses exactly when its value is at most 2147483647, and then to that value |
| Text.IntToStringParses | src/main/java/com/example/gamecatalog/repository/GameRepository.java:341 | `parseInt` reads back every `int` that `toString` writes |
| Text.NegativeParses | src/main/java/com/example/gamecatalog/repository/GameRepository.java:341 | a minus sign before the digits of a magnitude up to 2147483648 reads back as the negative value |
| Sorting.SortSorted | src/main/java/com/example/gamecatalog/repository/GameRepository.java:457 | for a total preorder the sorted list is in order and is a permutation of the input |
| Scanner.SkipSpaces | src/main/java/com/example/gamecatalog/repository/GameRepository.java:131 | what `\s*` leaves is a suffix of the text that does not start with white space |
| Scanner.IndexOf | src/main/java/com/example/gamecatalog/repository/GameRepository.java:190 | -1 exactly when the character does not occur; otherwise its first position |
| Scanner.Objects | src/main/java/com/example/gamecatalog/repository/GameRepository.java:60-64 | every match of the game pattern starts with `{` and ends with `}` |
| Scanner.BracketEnd | src/main/java/com/example/gamecatalog/repository/GameRepository.java:185 | the lazy `.*?` ends at the first `]`, with no `]` and no line terminator before it |
| Scanner.ValueAt | src/main/java/com/example/gamecatalog/repository/GameRepository.java:149 | a list pattern captures items and the others a token; the integer pattern captures `null` or a non-empty digit run |
| Scanner.Find | src/main/java/com/example/gamecatalog/repository/GameRepository.java:131-133 | the first match has the capture shape of its pattern |
| Scanner.FindNone | src/main/java/com/example/gamecatalog/repository/GameRepository.java:131-133 | with no match at any start position, `find` finds nothing |
| Scanner.FindFirst | src/main/java/com/example/gamecatalog/repository/GameRepository.java:131-133 | `find` yields the match at the first start position that has one |
| Scanner.FindAbsent | src/main/java/com/example/gamecatalog/repository/GameRepository.java:131-133 | a text in which the quoted field name never occurs has no match for that field, whatever its value pattern |
| Scanner.FindSigned | src/main/java/com/example/gamecatalog/repository/GameRepository.java:149-151 | `\d+\|null` does not match a value that starts with `-`, so a number field whose every occurrence holds a negative value is not found |
| Codec.ExtractAbsent | src/main/java/com/example/gamecatalog/repository/GameRepository.java:130-197 | a field whose quoted name never occurs is left unset by all four extractors: text, integer, double and list |
| Codec.ExtractSigned | src/main/java/com/example/gamecatalog/repository/GameRepository.java:148-157 | a number field whose every occurrence holds a negative value is left unset, and reading does not fail |
| Codec.ExtractText | src/main/java/com/example/gamecatalog/repository/GameRepository.java:130-139 | a text found is never the string `null`: a quoted `"null"` leaves the field absent |
| Codec.ExtractInt | src/main/java/com/example/gamecatalog/repository/GameRepository.java:148-157 | a value read lies in 0 to 2147483647; the read fails exactly when the digit run found exceeds the `int` range |
| Codec.ExtractRating | src/main/java/com/example/gamecatalog/repository/GameRepository.java:166-175 | a rating read is never the token `null` |
| Codec.Cons | src/main/java/com/example/gamecatalog/repository/GameRepository.java:63-69 | the entries so far succeed exactly when both parts do, and then the new entry comes first |
| Codec.ParseAll | src/main/java/com/example/gamecatalog/repository/GameRepository.java:63-69 | a successful load has exactly one entry per matched object |
| Codec.ParseEmptyObject | src/main/java/com/example/gamecatalog/repository/GameRepository.java:78-120 | the document `[{}]` loads as one entry whose every field has its default |
| Codec.ReadTextFields | src/main/java/com/example/gamecatalog/repository/GameRepository.java:82-118 | each text field holds what its extractor finds and the other fields are unchanged |
| Codec.ReadListFields | src/main/java/com/example/gamecatalog/repository/GameRepository.java:91-112 | each list field holds the items found, or stays empty when the field is missing |
| Codec.ParseGameFromJson | src/main/java/com/example/gamecatalog/repository/GameRepository.java:78-121 | the setter sequence on a fresh `Game` yields exactly `ParseEntry` |
| Codec.ParseGamesFromJson | src/main/java/com/example/gamecatalog/repository/GameRepository.java:58-69 | the `find` loop yields exactly `Load` of the content |
| Codec.JoinEntriesSnoc | src/main/java/com/example/gamecatalog/repository/GameRepository.java:239-243 | one more entry text is added after a `,` and a line break |
| Codec.WrittenStep | src/main/java/com/example/gamecatalog/repository/GameRepository.java:239-244 | each loop step of `saveGames` extends the text written so far by one entry and its separator |
| Codec.WrittenClose | src/main/java/com/example/gamecatalog/repository/GameRepository.java:245 | the closing line completes the document |
| Codec.AppendJsonString | src/main/java/com/example/gamecatalog/repository/GameRepository.java:315-326 | appends exactly one field line, with `null` or the quoted text |
| Codec.AppendJsonValue | src/main/java/com/example/gamecatalog/repository/GameRepository.java:336-347 | appends exactly one field line, with `null` or the printed number |
| Codec.ItemsTextSnoc | src/main/java/com/example/gamecatalog/repository/GameRepository.java:360-364 | one more list item follows a comma |
| Codec.AppendItems | src/main/java/com/example/gamecatalog/repository/GameRepository.java:360-365 | the item loop writes every item in quotes after a space, separated by commas |
| Codec.AppendJsonArray | src/main/java/com/example/gamecatalog/repository/GameRepository.java:357-373 | appends exactly one field line, with `[]` for an empty list and `[ "a", "b" ]` otherwise |
| Codec.PrintedInt | src/main/java/com/example/gamecatalog/repository/GameRepository.java:341 | an `Integer` prints as its decimal text, or as `null` when absent |
| Codec.FieldsAt | src/main/java/com/example/gamecatalog/repository/GameRepository.java:264-301 | the thirteen fields are written in this order, under these names, with these values |
| Codec.EntryJsonUnrolled | src/main/java/com/example/gamecatalog/repository/GameRepository.java:260-305 | an entry's text is the opening line, the thirteen field lines with a comma after all but the last, then the closing line |
| Codec.GameToJson | src/main/java/com/example/gamecatalog/repository/GameRepository.java:260-305 | the appends produce exactly `EntryJson` |
| Repository.AddAbsent | src/main/java/com/example/gamecatalog/repository/GameRepository.java:448-452 | the inner loop extends the distinct values with the new list's values that are not present yet |
| Repository.WriteDocument | src/main/java/com/example/gamecatalog/repository/GameRepository.java:238-245 | the writing loop produces exactly `Serialize` of the games |
| Repository.GameRepository.constructor | src/main/java/com/example/gamecatalog/repository/GameRepository.java:33-50 | after a successful read the list is the loaded document; after a failed read it is empty |
| Repository.GameRepository.SaveGames | src/main/java/com/example/gamecatalog/repository/GameRepository.java:236-252 | the result is whether writing succeeded; on success the text written is the serialized list; the list does not change |
| Repository.GameRepository.GetAllGames | src/main/java/com/example/gamecatalog/repository/GameRepository.java:380-382 | returns the list as it stands |
| Repository.GameRepository.AddGame | src/main/java/com/example/gamecatalog/repository/GameRepository.java:390-396 | null is refused and changes nothing; otherwise the game is appended |
| Repository.GameRepository.UpdateGame | src/main/java/com/example/gamecatalog/repository/GameRepository.java:405-411 | refused exactly when the game is null or the index is outside the list, and then nothing changes; otherwise only that position is replaced |
| Repository.GameRepository.RemoveGame | src/main/java/com/example/gamecatalog/repository/GameRepository.java:419-425 | refused exactly when the index is outside the list, and then nothing changes; otherwise exactly that entry goes and the rest keep their order |
| Repository.GameRepository.GetGameCount | src/main/java/com/example/gamecatalog/repository/GameRepository.java:432-434 | the length of the list |
| Repository.GameRepository.CollectFacet | src/main/java/com/example/gamecatalog/repository/GameRepository.java:445-454 | the collecting loop yields the distinct list values in order of first appearance |
| Repository.GameRepository.CollectCredit | src/main/java/com/example/gamecatalog/repository/GameRepository.java:592-597 | the collecting loop yields the distinct non-null, non-empty values in order of first appearance |
| Repository.GameRepository.GetAllGenres | src/main/java/com/example/gamecatalog/repository/GameRepository.java:441-459 | the distinct genres, sorted case-insensitively (see `Queries.AggregateSpec`) |
| Repository.GameRepository.GetAllPlatforms | src/main/java/com/example/gamecatalog/repository/GameRepository.java:490-508 | the distinct platforms, sorted case-insensitively |
| Repository.GameRepository.GetAllTags | src/main/java/com/example/gamecatalog/repository/GameRepository.java:516-534 | the distinct tags, sorted case-insensitively |
| Repository.GameRepository.GetAllPublishers | src/main/java/com/example/gamecatalog/repository/GameRepository.java:588-602 | the distinct non-empty publishers, sorted case-insensitively |
| Repository.GameRepository.GetAllDevelopers | src/main/java/com/example/gamecatalog/repository/GameRepository.java:610-624 | the distinct non-empty developers, sorted case-insensitively |
| Repository.GameRepository.GetMaxReleaseYear | src/main/java/com/example/gamecatalog/repository/GameRepository.java:632-643 | at least the current year and every release year, and equal to the current year or to some entry's year |
| Repository.GameRepository.GetMinReleaseYear | src/main/java/com/example/gamecatalog/repository/GameRepository.java:650-666 | 1970 when no year lies below 2025; otherwise the smallest release year present |
| Repository.GameRepository.FilterByFacet | src/main/java/com/example/gamecatalog/repository/GameRepository.java:468-483 | a null or empty value keeps the whole list; otherwise the entries whose list contains it |
| Repository.GameRepository.FilterByCredit | src/main/java/com/example/gamecatalog/repository/GameRepository.java:674-689 | a null or empty value keeps the whole list; otherwise the entries whose field equals it |
| Repository.GameRepository.SelectLoop | src/main/java/com/example/gamecatalog/repository/GameRepository.java:724-729 | the filtering loop yields exactly `Select` of the list |
| Repository.GameRepository.GetGamesByGenre | src/main/java/com/example/gamecatalog/repository/GameRepository.java:468-483 | the whole list for a null or empty genre; otherwise the entries listing that genre, in order |
| Repository.GameRepository.GetGamesByPlatform | src/main/java/com/example/gamecatalog/repository/GameRepository.java:543-558 | the whole list for a null or empty platform; otherwise the entries listing it, in order |
| Repository.GameRepository.GetGamesByTag | src/main/java/com/example/gamecatalog/repository/GameRepository.java:566-581 | the whole list for a null or empty tag; otherwise the entries listing it, in order |
| Repository.GameRepository.GetGamesByPublisher | src/main/java/com/example/gamecatalog/repository/GameRepository.java:674-689 | the whole list for a null or empty publisher; otherwise the entries with exactly that publisher |
| Repository.GameRepository.GetGamesByDeveloper | src/main/java/com/example/gamecatalog/repository/GameRepository.java:697-712 | the whole list for a null or empty developer; otherwise the entries with exactly that developer |
| Repository.GameRepository.GetGamesByYearRange | src/main/java/com/example/gamecatalog/repository/GameRepository.java:721-732 | the entries with a release year in the inclusive range, in order |
| Repository.GameRepository.GetGamesSortedByTitleAsc | src/main/java/com/example/gamecatalog/repository/GameRepository.java:739-752 | the list sorted by the ascending title comparator; the stored list is left as it is |
| Repository.GameRepository.GetGamesSortedByTitleDesc | src/main/java/com/example/gamecatalog/repository/GameRepository.java:759-772 | the list sorted by the descending title comparator; the stored list is left as it is |
| Queries.Distinct | src/main/java/com/example/gamecatalog/repository/GameRepository.java:445-454 | the collected values are exactly the input's values, each once |
| Queries.DistinctSnoc | src/main/java/com/example/gamecatalog/repository/GameRepository.java:449-451 | one more value is appended unless it is already there |
| Queries.FacetValuesMembers | src/main/java/com/example/gamecatalog/repository/GameRepository.java:445-453 | a value is collected exactly when some entry's list contains it |
| Queries.CreditValuesMembers | src/main/java/com/example/gamecatalog/repository/GameRepository.java:592-597 | a value is collected exactly when it is non-empty and some entry has it |
| Queries.IgnoreCaseOrderPreorder | src/main/java/com/example/gamecatalog/repository/GameRepository.java:457 | `compareToIgnoreCase` used as a comparator is total and transitive |
| Queries.AggregateSpec | src/main/java/com/example/gamecatalog/repository/GameRepository.java:441-459 | an aggregator's result has no duplicates, holds exactly the input's values and is sorted case-insensitively |
| Queries.Select | src/main/java/com/example/gamecatalog/repository/GameRepository.java:473-482 | a filter never yields more entries than the list has |
| Queries.SelectMembers | src/main/java/com/example/gamecatalog/repository/GameRepository.java:473-482 | an entry is in the result exactly when it is in the list and meets the condition |
| Queries.SelectAppend | src/main/java/com/example/gamecatalog/repository/GameRepository.java:475-480 | filtering keeps list order: the filter of a concatenation is the concatenation of the filters |
| Queries.SelectAll | src/main/java/com/example/gamecatalog/repository/GameRepository.java:724-729 | when every entry meets the condition the whole list comes back |
| Queries.TitleAscPreorder | src/main/java/com/example/gamecatalog/repository/GameRepository.java:741-750 | the ascending title comparator is total and transitive |
| Queries.TitleDescPreorder | src/main/java/com/example/gamecatalog/repository/GameRepository.java:761-770 | the descending title comparator is total and transitive |
| Queries.SortedByTitleAsc | src/main/java/com/example/gamecatalog/repository/GameRepository.java:739-752 | a permutation, untitled entries first, titled ones in case-insensitive order |
| Queries.SortedByTitleDesc | src/main/java/com/example/gamecatalog/repository/GameRepository.java:759-772 | a permutation, untitled entries last, titled ones in reverse case-insensitive order |
| AddGame.Validate | src/main/java/com/example/gamecatalog/controller/AddGameController.java:118-167 | missing required field exactly when title, developer or publisher is blank; then invalid year, then invalid Steam ID, each exactly when its non-blank text is not an `int`; otherwise valid |
| AddGame.TrimmedPieces | src/main/java/com/example/gamecatalog/controller/AddGameController.java:232-235 | every piece kept is non-empty and already trimmed |
| AddGame.TrimmedPiecesFrom | src/main/java/com/example/gamecatalog/controller/AddGameController.java:232-234 | trimming and dropping pieces introduces no character absent from every piece |
| AddGame.ParseCsvList | src/main/java/com/example/gamecatalog/controller/AddGameController.java:227-235 | blank input gives the empty list; every item is non-empty, trimmed and comma-free |
| AddGame.ParseCsvJoin | src/main/java/com/example/gamecatalog/controller/AddGameController.java:227-235 | non-empty trimmed comma-free items come back from their comma-joined text |
| AddGame.TrimmedPiecesAppend | src/main/java/com/example/gamecatalog/controller/AddGameController.java:232-234 | trimming and dropping works piece by piece: the result for two runs of pieces is the two results in order |
| AddGame.TrimmedPiecesMembers | src/main/java/com/example/gamecatalog/controller/AddGameController.java:232-234 | an item is kept exactly when it is non-empty and the trimmed form of some piece |
| AddGame.TrimmedPiecesSource | src/main/java/com/example/gamecatalog/controller/AddGameController.java:232-234 | every kept item is the trimmed form of the piece at some index |
| AddGame.TrimmedPiecesHas | src/main/java/com/example/gamecatalog/controller/AddGameController.java:232-234 | every piece whose trimmed form is non-empty contributes that form |
| AddGame.CsvPieces | src/main/java/com/example/gamecatalog/controller/AddGameController.java:227-235 | the blank guard changes no result: the list is always the trimmed non-empty pieces of the split at commas |
| AddGame.ParseCsvConcat | src/main/java/com/example/gamecatalog/controller/AddGameController.java:227-235 | the list read from `a,b` is the list from `a` followed by the list from `b`, for all texts `a` and `b` |
| AddGame.ParseCsvMembers | src/main/java/com/example/gamecatalog/controller/AddGameController.java:227-235 | an item is listed exactly when it is the non-empty trimmed text of some comma-separated piece |
| AddGame.ParseCsvSingle | src/main/java/com/example/gamecatalog/controller/AddGameController.java:227-235 | non-blank text without a comma is the one-item list of its trimmed form |
| AddGame.SetCredits | src/main/java/com/example/gamecatalog/controller/AddGameController.java:182-192 | each list field is set from its parsed text only when that text is not blank |
| AddGame.SetNumbers | src/main/java/com/example/gamecatalog/controller/AddGameController.java:194-200 | Steam ID and release year are parsed from the trimmed text only when it is not blank |
| AddGame.SetDetails | src/main/java/com/example/gamecatalog/controller/AddGameController.java:202-216 | language, rating, tags and description are set only from non-blank text, trimmed or parsed |
| AddGame.CreateGameFromFields | src/main/java/com/example/gamecatalog/controller/AddGameController.java:174-219 | a fresh record with trimmed title, developer and publisher and each optional field as its text gives, or its default |
| AddGame.FileExtension | src/main/java/com/example/gamecatalog/controller/AddGameController.java:273-279 | empty exactly when the name has no `.`; otherwise the suffix from the last `.` |
| RoundTrip.FindLines | src/main/java/com/example/gamecatalog/repository/GameRepository.java:131-133 | searching written field lines finds the first line of the key whose value the pattern accepts, or goes on past them |
| RoundTrip.FindField | src/main/java/com/example/gamecatalog/repository/GameRepository.java:130-197 | in an entry's object, each field pattern finds exactly the value written for that field |
| RoundTrip.ReadBackText | src/main/java/com/example/gamecatalog/repository/GameRepository.java:130-139 | a text field reads back as written |
| RoundTrip.ReadBackList | src/main/java/com/example/gamecatalog/repository/GameRepository.java:184-197 | a list field reads back as written |
| RoundTrip.ReadBackInt | src/main/java/com/example/gamecatalog/repository/GameRepository.java:148-157 | a non-negative integer field reads back as written |
| RoundTrip.ReadBackRating | src/main/java/com/example/gamecatalog/repository/GameRepository.java:166-175 | a rating numeral reads back as written |
| RoundTrip.ParseEntryBody | src/main/java/com/example/gamecatalog/repository/GameRepository.java:78-121 | an entry's written object parses back to that entry |
| RoundTrip.BodyIsObject | src/main/java/com/example/gamecatalog/repository/GameRepository.java:60 | an entry's written object is exactly one match of the game pattern |
| RoundTrip.EntryJsonBody | src/main/java/com/example/gamecatalog/repository/GameRepository.java:260-305 | an entry's text is two spaces before its object |
| RoundTrip.ObjectsJoined | src/main/java/com/example/gamecatalog/repository/GameRepository.java:60-64 | the joined entry texts match as their objects, in order |
| RoundTrip.EmptyDocument | src/main/java/com/example/gamecatalog/repository/GameRepository.java:238-245 | the document of no entries holds no object |
| RoundTrip.DocumentObjects | src/main/java/com/example/gamecatalog/repository/GameRepository.java:238-245 | the saved document's objects are the entries' objects, in order |
| RoundTrip.ParseAllOk | src/main/java/com/example/gamecatalog/repository/GameRepository.java:63-69 | objects that each parse load as the list of their entries |
| RoundTrip.LoadSerialize | src/main/java/com/example/gamecatalog/repository/GameRepository.java:41-69 | loading what `saveGames` wrote gives the same entries in the same order, for safe entries |
| RoundTrip.LoadNoObjects | src/main/java/com/example/gamecatalog/repository/GameRepository.java:58-69 | a document without `{`, such as `[]`, loads no entries |

## Left out

- File I/O: reading and writing the file are parameters. `readOk` and `content` stand for the read; `writeOk` stands for the write. Logging is not modelled.
- Java `double` arithmetic: a rating is kept as the numeral text it was read or typed as. `Double.parseDouble` and `Double.toString` are not modelled, so a rating read as `8` is written back as `8` rather than `8.0`.
- AddGame.Validate: does not model the rating check at lines 151-164, which needs a `double` parse and the 0 to 10 bounds.
- AddGame.SetDetails: stores the trimmed rating text rather than the parsed `double`.
- AddGame.CreateGameFromFields: requires that the Steam ID and release-year texts are blank or valid `int`s. `validateInput` guarantees this before the call; otherwise `parseInt` would throw.
- Repository.GameRepository.constructor: requires that every digit run the fields hold fits an `int`. A larger one makes `parseInt` throw, and only the `IOException` is caught, so construction fails. The load function models this case as `NumberFormatError`.
- Repository.GameRepository.GetMaxReleaseYear: the current year is a parameter instead of the clock.
- Object identity and aliasing: the store holds `Entry` values. Sharing of `Game` objects between the list, its copies and the callers is not modelled.
- Sorting.SortSorted: the model sorts with a stable insertion sort and proves the result sorted and a permutation. It does not prove stability, nor that it equals the order Java's merge sort yields.
- Case folding: `compareToIgnoreCase` is modelled for ASCII letters only. Other characters compare by their code.
- Text.JavaParseInt: accepts ASCII digits only. Non-ASCII decimal digits, which `Integer.parseInt` also accepts, are rejected here. This matters only for typed form input; the stored document holds ASCII digits, because the integer pattern `\d` matches those alone.
- RoundTrip.LoadSerialize: the round trip is proved only for entries that meet the following conditions:
  - no text or list item contains `"`, `{` or `}`;
  - no list item contains `]` or a line terminator;
  - no text is `null`;
  - no number is negative;
  - every rating is a plain numeral.
- Negative numbers: a negative number is written with a `-`, which the integer pattern does not accept, so it reads back absent (`Codec.ExtractSigned`). The round trip therefore excludes negative numbers.
- The JavaFX windows, cards, alerts and help window, and the copying of the cover image under a random UUID name, are not modelled; only the `getFileExtension` rule is.
- The stale `Game` class in the root package is not part of this model. It is not used by the repository.
- `module-info.java` is not part of this model.
- Queries the code does not contain (combined filters, pagination) are not modelled.
