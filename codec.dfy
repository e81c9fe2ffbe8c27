/**
 * The repository's document codec: reading entries out of the JSON text with
 * the field scanners, and writing them back in the canonical layout.
 */
module Codec {
  import opened Base
  import opened Text
  import opened Model
  import opened Scanner

  /** A load either yields its value or stops at an integer `parseInt` rejects. */
  datatype Outcome<T> = Ok(value: T) | NumberFormatError

  // The field names, in the canonical order.
  const TitleKey: string := "title"
  const DeveloperKey: string := "developer"
  const PublisherKey: string := "publisher"
  const GenresKey: string := "genres"
  const PlatformsKey: string := "platforms"
  const TranslatorsKey: string := "translators"
  const SteamIdKey: string := "steamId"
  const ReleaseYearKey: string := "releaseYear"
  const LanguageKey: string := "language"
  const RatingKey: string := "rating"
  const TagsKey: string := "tags"
  const CoverImagePathKey: string := "coverImagePath"
  const DescriptionPathKey: string := "descriptionPath"

  // ------------------------------------------------------------- reading

  /** `extractStringValue`: the quoted value, unless the field is missing or reads "null". */
  function ExtractText(json: string, name: string): (r: Option<string>)
    ensures r.Some? ==> r.value != "null"
  {
    match Find(json, name, TextKind)
    case Some(Token(v)) => if v == "null" then None else Some(v)
    case _ => None
  }

  /** `extractIntegerValue`: a digit run read with `parseInt`, which fails beyond the `int` range. */
  function ExtractInt(json: string, name: string): (r: Outcome<Option<int>>)
    ensures r.Ok? && r.value.Some? ==> 0 <= r.value.value <= IntMax
    ensures r.NumberFormatError? <==>
      (var f := Find(json, name, IntKind); f.Some? && f.value.text != "null" && DigitsValue(f.value.text) > IntMax)
  {
    match Find(json, name, IntKind)
    case Some(Token(v)) =>
      if v == "null" then Ok(None)
      else
        (match JavaParseInt(v)
         case Some(x) => Ok(Some(x))
         case None => NumberFormatError)
    case _ => Ok(None)
  }

  /** `extractDoubleValue`, keeping the numeral itself. */
  function ExtractRating(json: string): (r: Option<Rating>)
    ensures r.Some? ==> r.value != "null"
  {
    match Find(json, RatingKey, RealKind)
    case Some(Token(v)) => if v == "null" then None else Some(v)
    case _ => None
  }

  /** `extractStringListValue`: the quoted items of the list, or nothing when the field is missing. */
  function ExtractList(json: string, name: string): Option<seq<string>> {
    match Find(json, name, ListKind)
    case Some(Items(xs)) => Some(xs)
    case _ => None
  }

  /** A field whose quoted name never occurs in the object is absent: null, or the empty list later. */
  lemma ExtractAbsent(json: string, name: string)
    requires forall i :: 0 <= i < |json| ==> !KeyAt(json[i..], Quote(name))
    ensures ExtractText(json, name) == None
    ensures ExtractInt(json, name) == Ok(None)
    ensures ExtractList(json, name) == None
    ensures name == RatingKey ==> ExtractRating(json) == None
  {
    FindAbsent(json, name, TextKind);
    FindAbsent(json, name, IntKind);
    FindAbsent(json, name, ListKind);
    FindAbsent(json, name, RealKind);
  }

  /** A number field whose every occurrence holds a negative value reads as null, not as an error. */
  lemma ExtractSigned(json: string, name: string)
    requires forall i :: 0 <= i < |json| && KeyAt(json[i..], Quote(name)) ==> SignedValueAfter(json[i..][|Quote(name)|..])
    ensures ExtractInt(json, name) == Ok(None)
  {
    FindSigned(json, name);
  }

  /** `parseGameFromJson`: each field extracted on its own from one matched object. */
  function ParseEntry(json: string): Outcome<Entry> {
    var steamId := ExtractInt(json, SteamIdKey);
    var releaseYear := ExtractInt(json, ReleaseYearKey);
    if steamId.NumberFormatError? || releaseYear.NumberFormatError? then NumberFormatError
    else
      Ok(Entry(ExtractText(json, TitleKey), ExtractText(json, DeveloperKey), ExtractText(json, PublisherKey),
               ListOrEmpty(ExtractList(json, GenresKey)), ListOrEmpty(ExtractList(json, PlatformsKey)),
               ListOrEmpty(ExtractList(json, TranslatorsKey)),
               steamId.value, releaseYear.value, ExtractText(json, LanguageKey), ExtractRating(json),
               ListOrEmpty(ExtractList(json, TagsKey)), ExtractText(json, CoverImagePathKey),
               ExtractText(json, DescriptionPathKey)))
  }

  /** Puts one parsed entry in front of the rest, unless either failed. */
  function Cons(e: Outcome<Entry>, rest: Outcome<seq<Entry>>): (r: Outcome<seq<Entry>>)
    ensures r.Ok? <==> e.Ok? && rest.Ok?
    ensures r.Ok? ==> r.value == [e.value] + rest.value
  {
    if e.NumberFormatError? || rest.NumberFormatError? then NumberFormatError
    else Ok([e.value] + rest.value)
  }

  function ParseAll(objects: seq<string>): (r: Outcome<seq<Entry>>)
    ensures r.Ok? ==> |r.value| == |objects|
  {
    if objects == [] then Ok([]) else Cons(ParseEntry(objects[0]), ParseAll(objects[1..]))
  }

  /** `parseGamesFromJson`: one entry per matched brace object, in document order. */
  function Load(content: string): Outcome<seq<Entry>> {
    ParseAll(Objects(content))
  }

  /** `parseGameFromJson` never gives up on an object: `{}` becomes the entry of a fresh `Game`. */
  lemma ParseEmptyObject()
    ensures Load("[{}]") == Ok([Blank])
  {
    var s, t, o := "[{}]", "{}]", "{}";
    assert s[1..] == t && t[..2] == o && t[2..] == "]";
    assert ObjectAt(s) == None;
    assert ObjectRest(t, 1, 0) == Some(2);
    assert Objects(t) == [o] + Objects("]");
    assert ObjectAt("]") == None && "]"[1..] == [];
    assert Objects(s) == [o];
    assert o[1..] == "}" && o[1..][1..] == "";
    forall name, kind ensures Find(o, name, kind) == None {
      assert Find(o[1..][1..], name, kind) == None;
    }
    assert ParseEntry(o) == Ok(Blank);
    assert [o][1..] == [];
    assert ParseAll([o]) == Cons(Ok(Blank), Ok([]));
    assert [Blank] + [] == [Blank];
  }

  // ------------------------------------------------------------- writing

  /** The value written after `"name" : `. */
  datatype JsonValue = JNull | JString(s: string) | JNumber(numeral: string) | JArray(items: seq<string>)

  /** One list item as written: a space, then the item in quotes. */
  function ItemText(x: string): string {
    " \"" + x + "\""
  }

  /** The written items, separated by commas. */
  function ItemsText(xs: seq<string>): string
    requires |xs| >= 1
  {
    if |xs| == 1 then ItemText(xs[0])
    else ItemText(xs[0]) + "," + ItemsText(xs[1..])
  }

  function Render(v: JsonValue): string {
    match v
    case JNull => "null"
    case JString(s) => "\"" + s + "\""
    case JNumber(n) => n
    case JArray(xs) => if xs == [] then "[]" else "[" + ItemsText(xs) + " ]"
  }

  /** One field line: four spaces, the quoted name, the value, an optional comma, a line break. */
  function FieldLine(name: string, v: JsonValue, comma: bool): string {
    "    \"" + name + "\" : " + Render(v) + (if comma then "," else "") + "\n"
  }

  function TextValue(x: Option<string>): JsonValue {
    match x
    case None => JNull
    case Some(s) => JString(s)
  }

  function IntValue(x: Option<int>): JsonValue {
    match x
    case None => JNull
    case Some(n) => JNumber(IntToString(n))
  }

  /** A number already printed, or `null`. */
  function NumberValue(printed: Option<string>): JsonValue {
    match printed
    case None => JNull
    case Some(n) => JNumber(n)
  }

  /** The thirteen fields in the canonical order. */
  function Fields(e: Entry): (r: seq<(string, JsonValue)>)
    ensures |r| == 13
  {
    [(TitleKey, TextValue(e.title)), (DeveloperKey, TextValue(e.developer)),
     (PublisherKey, TextValue(e.publisher)), (GenresKey, JArray(e.genres)),
     (PlatformsKey, JArray(e.platforms)), (TranslatorsKey, JArray(e.translators)),
     (SteamIdKey, IntValue(e.steamId)), (ReleaseYearKey, IntValue(e.releaseYear)),
     (LanguageKey, TextValue(e.language)), (RatingKey, NumberValue(e.rating)),
     (TagsKey, JArray(e.tags)), (CoverImagePathKey, TextValue(e.coverImagePath)),
     (DescriptionPathKey, TextValue(e.descriptionPath))]
  }

  /** The field lines, every one but the last followed by a comma. */
  function Lines(fs: seq<(string, JsonValue)>): string {
    if fs == [] then "" else FieldLine(fs[0].0, fs[0].1, |fs| > 1) + Lines(fs[1..])
  }

  /** `gameToJson` */
  function EntryJson(e: Entry): string {
    "  {\n" + Lines(Fields(e)) + "\n  }"
  }

  /** The entry texts, one per entry. */
  function EntryTexts(es: seq<Entry>): (r: seq<string>)
    ensures |r| == |es|
  {
    seq(|es|, k requires 0 <= k < |es| => EntryJson(es[k]))
  }

  /** Texts joined by `",\n"`. */
  function JoinEntries(parts: seq<string>): string {
    if parts == [] then ""
    else if |parts| == 1 then parts[0]
    else parts[0] + ",\n" + JoinEntries(parts[1..])
  }

  /** One more text after a non-empty list: a separator, then the text. */
  lemma {:induction false} JoinEntriesSnoc(parts: seq<string>, x: string)
    requires parts != []
    ensures JoinEntries(parts + [x]) == JoinEntries(parts) + ",\n" + x
  {
    if |parts| == 1 {
      assert (parts + [x])[1..] == [x];
    } else {
      assert (parts + [x])[1..] == parts[1..] + [x];
      JoinEntriesSnoc(parts[1..], x);
    }
  }

  /** The whole document `saveGames` writes. */
  function Serialize(es: seq<Entry>): string {
    "[\n" + JoinEntries(EntryTexts(es)) + "\n]"
  }

  /** What `saveGames` has written after `i` of the texts: the opening line, then each text with its separator. */
  ghost function Written(parts: seq<string>, i: nat): string
    requires i <= |parts|
  {
    if i == 0 then "[\n" else "[\n" + JoinEntries(parts[..i]) + (if i < |parts| then ",\n" else "")
  }

  /** One more text, and a separator unless it was the last one. */
  lemma WrittenStep(parts: seq<string>, i: nat)
    requires i < |parts|
    ensures Written(parts, i) + parts[i] + (if i < |parts| - 1 then ",\n" else "") == Written(parts, i + 1)
  {
    if i == 0 {
      assert parts[..1] == [parts[0]];
    } else {
      JoinEntriesSnoc(parts[..i], parts[i]);
      assert parts[..i] + [parts[i]] == parts[..i + 1];
    }
  }

  /** After every text, the closing line completes the document. */
  lemma WrittenClose(parts: seq<string>)
    ensures Written(parts, |parts|) + "\n]" == "[\n" + JoinEntries(parts) + "\n]"
  {
    var open: string := "[\n";
    if parts == [] {
      assert JoinEntries(parts) == [];
      assert open + [] == open;
    } else {
      assert parts[..|parts|] == parts;
      assert open + JoinEntries(parts) + [] == open + JoinEntries(parts);
    }
  }


  // ------------------------------------------------- the source's procedures

  /** The text fields of `parseGameFromJson`: each setter runs only when the field was found. */
  method ReadTextFields(json: string, game: Game)
    requires game.title == game.developer == game.publisher == None
    requires game.language == game.coverImagePath == game.descrptionPath == None
    modifies game
    ensures game.ToEntry() == old(game.ToEntry()).(
      title := ExtractText(json, TitleKey), developer := ExtractText(json, DeveloperKey),
      publisher := ExtractText(json, PublisherKey), language := ExtractText(json, LanguageKey),
      coverImagePath := ExtractText(json, CoverImagePathKey),
      descriptionPath := ExtractText(json, DescriptionPathKey))
  {
    var title := ExtractText(json, TitleKey);
    if title.Some? { game.SetTitle(title); }
    var developer := ExtractText(json, DeveloperKey);
    if developer.Some? { game.SetDeveloper(developer); }
    var publisher := ExtractText(json, PublisherKey);
    if publisher.Some? { game.SetPublisher(publisher); }
    var language := ExtractText(json, LanguageKey);
    if language.Some? { game.SetLanguage(language); }
    var cover := ExtractText(json, CoverImagePathKey);
    if cover.Some? { game.SetCoverImagePath(cover); }
    var description := ExtractText(json, DescriptionPathKey);
    if description.Some? { game.SetDescriptionPath(description); }
  }

  /** The list fields of `parseGameFromJson`; a list setter stores a copy of what was found. */
  method ReadListFields(json: string, game: Game)
    requires game.genres == game.platforms == game.translators == game.tags == []
    modifies game
    ensures game.ToEntry() == old(game.ToEntry()).(
      genres := ListOrEmpty(ExtractList(json, GenresKey)),
      platforms := ListOrEmpty(ExtractList(json, PlatformsKey)),
      translators := ListOrEmpty(ExtractList(json, TranslatorsKey)),
      tags := ListOrEmpty(ExtractList(json, TagsKey)))
  {
    var genres := ExtractList(json, GenresKey);
    if genres.Some? { game.SetGenres(genres); }
    var platforms := ExtractList(json, PlatformsKey);
    if platforms.Some? { game.SetPlatforms(platforms); }
    var translators := ExtractList(json, TranslatorsKey);
    if translators.Some? { game.SetTranslators(translators); }
    var tags := ExtractList(json, TagsKey);
    if tags.Some? { game.SetTags(tags); }
  }

  /**
   * `parseGameFromJson`, step by step on a fresh `Game`; a `parseInt` failure aborts it.
   * The setters run grouped by kind rather than in the source's field order: every
   * extraction reads the same unchanged text and sets a field of its own, and a
   * failure discards the partly filled object, so the order does not change the outcome.
   */
  method ParseGameFromJson(json: string) returns (r: Outcome<Entry>)
    ensures r == ParseEntry(json)
  {
    var game := new Game();
    ReadTextFields(json, game);
    ReadListFields(json, game);
    var steamId := ExtractInt(json, SteamIdKey);
    if steamId.NumberFormatError? { return NumberFormatError; }
    if steamId.value.Some? { game.SetSteamId(steamId.value); }
    var releaseYear := ExtractInt(json, ReleaseYearKey);
    if releaseYear.NumberFormatError? { return NumberFormatError; }
    if releaseYear.value.Some? { game.SetReleaseYear(releaseYear.value); }
    var rating := ExtractRating(json);
    if rating.Some? { game.SetRating(rating); }
    r := Ok(game.ToEntry());
  }

  /** Prefixes the entries already read to the outcome of reading the rest. */
  function Prepend(done: seq<Entry>, rest: Outcome<seq<Entry>>): (r: Outcome<seq<Entry>>)
    ensures done == [] ==> r == rest
  {
    match rest
    case NumberFormatError => NumberFormatError
    case Ok(es) => assert done == [] ==> done + es == es; Ok(done + es)
  }

  lemma PrependCons(games: seq<Entry>, e: Outcome<Entry>, rest: Outcome<seq<Entry>>)
    ensures e.NumberFormatError? ==> Prepend(games, Cons(e, rest)) == NumberFormatError
    ensures e.Ok? ==> Prepend(games, Cons(e, rest)) == Prepend(games + [e.value], rest)
  {
    if e.Ok? && rest.Ok? {
      assert games + ([e.value] + rest.value) == games + [e.value] + rest.value;
    }
  }

  /** One step of the scan: a match at the front, or a move past the first character. */
  lemma LoadStep(rest: string)
    requires rest != []
    ensures ObjectAt(rest).Some? ==>
      var n := ObjectAt(rest).value;
      ParseAll(Objects(rest)) == Cons(ParseEntry(rest[..n]), ParseAll(Objects(rest[n..])))
    ensures ObjectAt(rest).None? ==> ParseAll(Objects(rest)) == ParseAll(Objects(rest[1..]))
  {
    if ObjectAt(rest).Some? {
      var n := ObjectAt(rest).value;
      assert Objects(rest) == [rest[..n]] + Objects(rest[n..]);
      assert (Objects(rest))[1..] == Objects(rest[n..]);
    }
  }

  /** `parseGamesFromJson`: the `while (gameMatcher.find())` loop; `rest` is the text not yet scanned. */
  method ParseGamesFromJson(content: string) returns (r: Outcome<seq<Entry>>)
    ensures r == Load(content)
  {
    var games: seq<Entry> := [];
    var rest := content;
    while rest != []
      invariant Load(content) == Prepend(games, ParseAll(Objects(rest)))
      decreases |rest|
    {
      LoadStep(rest);
      var m := ObjectAt(rest);
      if m.Some? {
        var n := m.value;
        PrependCons(games, ParseEntry(rest[..n]), ParseAll(Objects(rest[n..])));
        var game := ParseGameFromJson(rest[..n]);
        if game.NumberFormatError? {
          return NumberFormatError;
        }
        games := games + [game.value];
        rest := rest[n..];
      } else {
        rest := rest[1..];
      }
    }
    assert games + [] == games;
    r := Ok(games);
  }

  // ------------------------------------------------- writing, step by step

  /** Appending one more item to a non-empty item list. */
  lemma {:induction false} ItemsTextSnoc(xs: seq<string>, x: string)
    requires |xs| >= 1
    ensures ItemsText(xs + [x]) == ItemsText(xs) + "," + ItemText(x)
  {
    if |xs| > 1 {
      assert (xs + [x])[1..] == xs[1..] + [x];
      ItemsTextSnoc(xs[1..], x);
    } else {
      assert (xs + [x])[1..] == [x];
    }
  }

  /** What follows a written value on its line: an optional comma, then a line break. */
  function LineEnd(comma: bool): string {
    (if comma then "," else "") + "\n"
  }

  /** `appendJsonString`: `null` for an absent value, otherwise the value in quotes. */
  method AppendJsonString(sb: string, name: string, value: Option<string>, comma: bool) returns (r: string)
    ensures r == sb + FieldLine(name, TextValue(value), comma)
  {
    var head := sb + "    \"" + name + "\" : ";
    r := head;
    if value.None? {
      r := r + "null";
    } else {
      var quoted := "\"" + value.value + "\"";
      r := r + quoted;
    }
    ghost var line := r;
    assert line == head + Render(TextValue(value));
    if comma {
      r := r + ",";
    }
    r := r + "\n";
    LineEndAppended(line, comma);
    FieldLineAppended(sb, name, TextValue(value), comma);
  }

  /** `appendJsonValue`: `null` for an absent number, otherwise its printed form. */
  method AppendJsonValue(sb: string, name: string, printed: Option<string>, comma: bool) returns (r: string)
    ensures r == sb + FieldLine(name, NumberValue(printed), comma)
  {
    ghost var v := NumberValue(printed);
    var head := sb + "    \"" + name + "\" : ";
    r := head;
    if printed.None? {
      r := r + "null";
    } else {
      r := r + printed.value;
    }
    ghost var line := r;
    assert line == head + Render(v);
    if comma {
      r := r + ",";
    }
    r := r + "\n";
    LineEndAppended(line, comma);
    FieldLineAppended(sb, name, v, comma);
  }

  /** The loop of `appendJsonArray`: each item, a comma after every one but the last. */
  method AppendItems(sb: string, list: seq<string>) returns (r: string)
    requires |list| >= 1
    ensures r == sb + ItemsText(list)
  {
    r := sb;
    var i := 0;
    while i < |list|
      invariant 0 <= i <= |list|
      invariant i == 0 ==> r == sb
      invariant i > 0 ==> r == sb + ItemsText(list[..i]) + (if i < |list| then "," else "")
    {
      if i > 0 {
        ItemsTextSnoc(list[..i], list[i]);
        assert list[..i] + [list[i]] == list[..i + 1];
      } else {
        assert list[..1] == [list[0]];
      }
      r := r + ItemText(list[i]);
      if i < |list| - 1 {
        r := r + ",";
      }
      i := i + 1;
    }
    assert list[..i] == list;
  }

  /** The opening bracket, the items, a space, the closing bracket. */
  lemma ListAppended(head: string, list: seq<string>)
    requires |list| >= 1
    ensures head + "[" + ItemsText(list) + " " + "]" == head + Render(JArray(list))
  {
  }

  /** `appendJsonArray`: `[]` for an empty list, otherwise `[ "a", "b" ]`. */
  method AppendJsonArray(sb: string, name: string, list: seq<string>, comma: bool) returns (r: string)
    ensures r == sb + FieldLine(name, JArray(list), comma)
  {
    var head := sb + "    \"" + name + "\" : ";
    r := head + "[";
    if |list| > 0 {
      r := AppendItems(r, list);
      r := r + " ";
      r := r + "]";
      ListAppended(head, list);
    } else {
      r := r + "]";
      assert head + "[" + "]" == head + Render(JArray(list));
    }
    ghost var line := r;
    if comma {
      r := r + ",";
    }
    r := r + "\n";
    LineEndAppended(line, comma);
    FieldLineAppended(sb, name, JArray(list), comma);
  }

  /** The printed form of an optional `Integer`. */
  function PrintedInt(x: Option<int>): (r: Option<string>)
    ensures NumberValue(r) == IntValue(x)
  {
    match x
    case None => None
    case Some(n) => Some(IntToString(n))
  }

  /** The field lines appended one by one to what is already written. */
  function Emit(acc: string, fs: seq<(string, JsonValue)>): string
    decreases |fs|
  {
    if fs == [] then acc else Emit(acc + FieldLine(fs[0].0, fs[0].1, |fs| > 1), fs[1..])
  }

  lemma {:induction false} EmitLines(acc: string, fs: seq<(string, JsonValue)>)
    ensures Emit(acc, fs) == acc + Lines(fs)
    decreases |fs|
  {
    if fs != [] {
      EmitLines(acc + FieldLine(fs[0].0, fs[0].1, |fs| > 1), fs[1..]);
    }
  }

  lemma EmitStep(acc: string, fs: seq<(string, JsonValue)>, k: nat)
    requires k < |fs|
    ensures Emit(acc, fs[k..]) == Emit(acc + FieldLine(fs[k].0, fs[k].1, k + 1 < |fs|), fs[k + 1..])
  {
    assert fs[k..][1..] == fs[k + 1..];
  }

  /** Thirteen field lines written out one after another. */
  lemma LinesUnrolled(fs: seq<(string, JsonValue)>)
    requires |fs| == 13
    ensures "  {\n" + Lines(fs) == "  {\n"
      + FieldLine(fs[0].0, fs[0].1, true)
      + FieldLine(fs[1].0, fs[1].1, true)
      + FieldLine(fs[2].0, fs[2].1, true)
      + FieldLine(fs[3].0, fs[3].1, true)
      + FieldLine(fs[4].0, fs[4].1, true)
      + FieldLine(fs[5].0, fs[5].1, true)
      + FieldLine(fs[6].0, fs[6].1, true)
      + FieldLine(fs[7].0, fs[7].1, true)
      + FieldLine(fs[8].0, fs[8].1, true)
      + FieldLine(fs[9].0, fs[9].1, true)
      + FieldLine(fs[10].0, fs[10].1, true)
      + FieldLine(fs[11].0, fs[11].1, true)
      + FieldLine(fs[12].0, fs[12].1, false)
  {
    EmitLines("  {\n", fs);
    assert fs[0..] == fs;
    var acc := "  {\n";
    EmitStep(acc, fs, 0);
    acc := acc + FieldLine(fs[0].0, fs[0].1, true);
    EmitStep(acc, fs, 1);
    acc := acc + FieldLine(fs[1].0, fs[1].1, true);
    EmitStep(acc, fs, 2);
    acc := acc + FieldLine(fs[2].0, fs[2].1, true);
    EmitStep(acc, fs, 3);
    acc := acc + FieldLine(fs[3].0, fs[3].1, true);
    EmitStep(acc, fs, 4);
    acc := acc + FieldLine(fs[4].0, fs[4].1, true);
    EmitStep(acc, fs, 5);
    acc := acc + FieldLine(fs[5].0, fs[5].1, true);
    EmitStep(acc, fs, 6);
    acc := acc + FieldLine(fs[6].0, fs[6].1, true);
    EmitStep(acc, fs, 7);
    acc := acc + FieldLine(fs[7].0, fs[7].1, true);
    EmitStep(acc, fs, 8);
    acc := acc + FieldLine(fs[8].0, fs[8].1, true);
    EmitStep(acc, fs, 9);
    acc := acc + FieldLine(fs[9].0, fs[9].1, true);
    EmitStep(acc, fs, 10);
    acc := acc + FieldLine(fs[10].0, fs[10].1, true);
    EmitStep(acc, fs, 11);
    acc := acc + FieldLine(fs[11].0, fs[11].1, true);
    EmitStep(acc, fs, 12);
    acc := acc + FieldLine(fs[12].0, fs[12].1, false);
    assert fs[13..] == [];
  }

  /** The thirteen fields, one by one. */
  lemma FieldsAt(e: Entry)
    ensures Fields(e)[0] == (TitleKey, TextValue(e.title))
    ensures Fields(e)[1] == (DeveloperKey, TextValue(e.developer))
    ensures Fields(e)[2] == (PublisherKey, TextValue(e.publisher))
    ensures Fields(e)[3] == (GenresKey, JArray(e.genres))
    ensures Fields(e)[4] == (PlatformsKey, JArray(e.platforms))
    ensures Fields(e)[5] == (TranslatorsKey, JArray(e.translators))
    ensures Fields(e)[6] == (SteamIdKey, IntValue(e.steamId))
    ensures Fields(e)[7] == (ReleaseYearKey, IntValue(e.releaseYear))
    ensures Fields(e)[8] == (LanguageKey, TextValue(e.language))
    ensures Fields(e)[9] == (RatingKey, NumberValue(e.rating))
    ensures Fields(e)[10] == (TagsKey, JArray(e.tags))
    ensures Fields(e)[11] == (CoverImagePathKey, TextValue(e.coverImagePath))
    ensures Fields(e)[12] == (DescriptionPathKey, TextValue(e.descriptionPath))
  {
  }

  /** `EntryJson` with its thirteen lines written out one after another. */
  lemma EntryJsonUnrolled(e: Entry)
    ensures EntryJson(e) == "  {\n"
      + FieldLine(TitleKey, TextValue(e.title), true)
      + FieldLine(DeveloperKey, TextValue(e.developer), true)
      + FieldLine(PublisherKey, TextValue(e.publisher), true)
      + FieldLine(GenresKey, JArray(e.genres), true)
      + FieldLine(PlatformsKey, JArray(e.platforms), true)
      + FieldLine(TranslatorsKey, JArray(e.translators), true)
      + FieldLine(SteamIdKey, IntValue(e.steamId), true)
      + FieldLine(ReleaseYearKey, IntValue(e.releaseYear), true)
      + FieldLine(LanguageKey, TextValue(e.language), true)
      + FieldLine(RatingKey, NumberValue(e.rating), true)
      + FieldLine(TagsKey, JArray(e.tags), true)
      + FieldLine(CoverImagePathKey, TextValue(e.coverImagePath), true)
      + FieldLine(DescriptionPathKey, TextValue(e.descriptionPath), false) + "\n  }"
  {
    FieldsAt(e);
    LinesUnrolled(Fields(e));
  }

  /** `gameToJson`: the thirteen field lines of the game's values, appended in the canonical order. */
  method GameToJson(e: Entry) returns (json: string)
    ensures json == EntryJson(e)
  {
    json := "  {\n";
    json := AppendJsonString(json, TitleKey, e.title, true);
    json := AppendJsonString(json, DeveloperKey, e.developer, true);
    json := AppendJsonString(json, PublisherKey, e.publisher, true);
    json := AppendJsonArray(json, GenresKey, e.genres, true);
    json := AppendJsonArray(json, PlatformsKey, e.platforms, true);
    json := AppendJsonArray(json, TranslatorsKey, e.translators, true);
    json := AppendJsonValue(json, SteamIdKey, PrintedInt(e.steamId), true);
    json := AppendJsonValue(json, ReleaseYearKey, PrintedInt(e.releaseYear), true);
    json := AppendJsonString(json, LanguageKey, e.language, true);
    json := AppendJsonValue(json, RatingKey, e.rating, true);
    json := AppendJsonArray(json, TagsKey, e.tags, true);
    json := AppendJsonString(json, CoverImagePathKey, e.coverImagePath, true);
    json := AppendJsonString(json, DescriptionPathKey, e.descriptionPath, false);
    json := json + "\n  }";
    EntryJsonUnrolled(e);
  }

  // -------------------------------------------------------- proof helpers
  // Sequence algebra the writers above rely on; none of it stands for source code.

  /** A field line appended to `sb`: the quoted name and colon, the value, the line end. */
  lemma FieldLineAppended(sb: string, name: string, v: JsonValue, comma: bool)
    ensures sb + FieldLine(name, v, comma) == sb + "    \"" + name + "\" : " + Render(v) + LineEnd(comma)
  {
  }

  /** The comma, when asked for, then the line break. */
  lemma LineEndAppended(line: string, comma: bool)
    ensures (if comma then line + "," else line) + "\n" == line + LineEnd(comma)
  {
  }
}
