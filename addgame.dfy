/**
 * The input-shaping helpers of the "add game" form: checking the field texts,
 * splitting comma-separated lists, building the new entry from the fields,
 * and the extension rule for the chosen cover image's file name.
 */
module AddGame {
  import opened Base
  import opened Text
  import opened Model

  /** The texts of the form's fields, as typed. */
  datatype Form = Form(
    title: string, developer: string, publisher: string,
    genres: string, platforms: string, translators: string,
    steamId: string, releaseYear: string, language: string,
    rating: string, tags: string, description: string)

  /** The outcome of `validateInput`: valid, or the first check that failed. */
  datatype Verdict = Valid | MissingRequired | InvalidReleaseYear | InvalidSteamId

  /** Blank text is accepted; otherwise the trimmed text must be a valid `int`. */
  predicate OptionalInt(text: string) {
    IsBlank(text) || JavaParseInt(Trim(text)).Some?
  }

  /**
   * `validateInput` without the rating check: the required fields first,
   * then the release year, then the Steam ID.
   */
  function Validate(form: Form): (r: Verdict)
    ensures r == MissingRequired <==> IsBlank(form.title) || IsBlank(form.developer) || IsBlank(form.publisher)
    ensures r == InvalidReleaseYear <==>
      !IsBlank(form.title) && !IsBlank(form.developer) && !IsBlank(form.publisher) && !OptionalInt(form.releaseYear)
    ensures r == InvalidSteamId <==>
      !IsBlank(form.title) && !IsBlank(form.developer) && !IsBlank(form.publisher) &&
      OptionalInt(form.releaseYear) && !OptionalInt(form.steamId)
    ensures r == Valid <==>
      !IsBlank(form.title) && !IsBlank(form.developer) && !IsBlank(form.publisher) &&
      OptionalInt(form.releaseYear) && OptionalInt(form.steamId)
  {
    if IsBlank(form.title) || IsBlank(form.developer) || IsBlank(form.publisher) then MissingRequired
    else if !IsBlank(form.releaseYear) && JavaParseInt(Trim(form.releaseYear)).None? then InvalidReleaseYear
    else if !IsBlank(form.steamId) && JavaParseInt(Trim(form.steamId)).None? then InvalidSteamId
    else Valid
  }

  // ----------------------------------------------------------- CSV lists

  /** The trimmed pieces, empty ones dropped. */
  function TrimmedPieces(pieces: seq<string>): (r: seq<string>)
    ensures |r| <= |pieces|
    ensures forall k :: 0 <= k < |r| ==> r[k] != [] && Trim(r[k]) == r[k]
  {
    if pieces == [] then []
    else
      var t := Trim(pieces[0]);
      TrimIdempotent(pieces[0]);
      (if t == [] then [] else [t]) + TrimmedPieces(pieces[1..])
  }

  /**
   * `parseCSVList`: blank input gives the empty list; otherwise the pieces
   * between commas, trimmed, with the empty ones dropped, in input order.
   * (Java's `split` also drops trailing empty pieces; they would be dropped here anyway.)
   */
  function ParseCsvList(csv: string): (r: seq<string>)
    ensures IsBlank(csv) ==> r == []
    ensures forall k :: 0 <= k < |r| ==> r[k] != [] && Trim(r[k]) == r[k] && ',' !in r[k]
  {
    if IsBlank(csv) then []
    else
      var pieces := Split(csv, ',');
      var r := TrimmedPieces(pieces);
      assert forall k :: 0 <= k < |r| ==> ',' !in r[k] by {
        TrimmedPiecesFrom(pieces, ',');
      }
      r
  }

  /** Every piece kept is the trimmed form of some piece, so carries no character none of them had. */
  lemma {:induction false} TrimmedPiecesFrom(pieces: seq<string>, c: char)
    requires forall k :: 0 <= k < |pieces| ==> c !in pieces[k]
    ensures forall k :: 0 <= k < |TrimmedPieces(pieces)| ==> c !in TrimmedPieces(pieces)[k]
  {
    if pieces != [] {
      TrimmedPiecesFrom(pieces[1..], c);
      TrimSubsequence(pieces[0], c);
    }
  }

  /** Trimming only removes characters. */
  lemma TrimSubsequence(s: string, c: char)
    requires c !in s
    ensures c !in Trim(s)
  {
    var t := Trim(s);
    var a := LeadingBlanks(s);
    forall k | 0 <= k < |t| ensures t[k] != c {
      assert t[k] == s[a + k];
    }
  }

  /** Items that are trimmed, non-empty and comma-free come back from their comma-joined text. */
  lemma ParseCsvJoin(xs: seq<string>)
    requires xs != []
    requires forall k :: 0 <= k < |xs| ==> xs[k] != [] && Trim(xs[k]) == xs[k] && ',' !in xs[k]
    ensures ParseCsvList(Join(xs, ',')) == xs
  {
    var csv := Join(xs, ',');
    SplitJoin(xs, ',');
    TrimmedPiecesKeep(xs);
    JoinNotBlank(xs);
  }

  lemma {:induction false} TrimmedPiecesKeep(xs: seq<string>)
    requires forall k :: 0 <= k < |xs| ==> xs[k] != [] && Trim(xs[k]) == xs[k]
    ensures TrimmedPieces(xs) == xs
  {
    if xs != [] {
      TrimmedPiecesKeep(xs[1..]);
    }
  }

  /** A join of non-empty trimmed items is not blank: it starts with the first character of its first item. */
  lemma JoinNotBlank(xs: seq<string>)
    requires xs != []
    requires forall k :: 0 <= k < |xs| ==> xs[k] != [] && Trim(xs[k]) == xs[k]
    ensures !IsBlank(Join(xs, ','))
  {
    var x := xs[0];
    var j := Join(xs, ',');
    assert x[0] == Trim(x)[0] > ' ';
    if |xs| > 1 {
      assert j == x + [','] + Join(xs[1..], ',');
    }
    assert j[0] == x[0];
  }

  /** Trimming and dropping works piece by piece, so it keeps the order of the pieces. */
  lemma {:induction false} TrimmedPiecesAppend(a: seq<string>, b: seq<string>)
    ensures TrimmedPieces(a + b) == TrimmedPieces(a) + TrimmedPieces(b)
  {
    if a == [] {
      assert a + b == b;
    } else {
      var p, rest := a[0], a[1..];
      assert a == [p] + rest;
      assert a + b == [p] + (rest + b);
      var head := TrimmedPieces([p]);
      calc {
        TrimmedPieces(a + b);
        { TrimmedPiecesCons(p, rest + b); }
        head + TrimmedPieces(rest + b);
        { TrimmedPiecesAppend(rest, b); }
        head + (TrimmedPieces(rest) + TrimmedPieces(b));
        (head + TrimmedPieces(rest)) + TrimmedPieces(b);
        { TrimmedPiecesCons(p, rest); }
        TrimmedPieces(a) + TrimmedPieces(b);
      }
    }
  }

  lemma TrimmedPiecesCons(p: string, rest: seq<string>)
    ensures TrimmedPieces([p] + rest) == TrimmedPieces([p]) + TrimmedPieces(rest)
  {
    assert ([p] + rest)[1..] == rest;
    assert [p][1..] == [];
  }

  /** An item is kept exactly when it is the non-empty trimmed form of one of the pieces. */
  lemma {:induction false} TrimmedPiecesMembers(pieces: seq<string>, x: string)
    ensures x in TrimmedPieces(pieces) <==> x != [] && exists k :: 0 <= k < |pieces| && Trim(pieces[k]) == x
  {
    if x in TrimmedPieces(pieces) {
      var k := TrimmedPiecesSource(pieces, x);
    }
    if x != [] && exists k :: 0 <= k < |pieces| && Trim(pieces[k]) == x {
      var k :| 0 <= k < |pieces| && Trim(pieces[k]) == x;
      TrimmedPiecesHas(pieces, k, x);
    }
  }

  /** Every kept item comes from a piece. */
  lemma {:induction false} TrimmedPiecesSource(pieces: seq<string>, x: string) returns (k: nat)
    requires x in TrimmedPieces(pieces)
    ensures k < |pieces| && Trim(pieces[k]) == x
  {
    var p, rest := pieces[0], pieces[1..];
    assert pieces == [p] + rest;
    TrimmedPiecesCons(p, rest);
    TrimmedPiecesOne(p, x);
    if x in TrimmedPieces([p]) {
      k := 0;
    } else {
      var j := TrimmedPiecesSource(rest, x);
      k := j + 1;
    }
  }

  lemma TrimmedPiecesOne(p: string, x: string)
    ensures x in TrimmedPieces([p]) <==> x != [] && x == Trim(p)
  {
    assert [p][1..] == [];
  }

  /** Every piece that is not blank is kept. */
  lemma {:induction false} TrimmedPiecesHas(pieces: seq<string>, k: nat, x: string)
    requires k < |pieces| && Trim(pieces[k]) == x && x != []
    ensures x in TrimmedPieces(pieces)
  {
    var p, rest := pieces[0], pieces[1..];
    assert pieces == [p] + rest;
    TrimmedPiecesCons(p, rest);
    if k == 0 {
      TrimmedPiecesOne(p, x);
    } else {
      assert rest[k - 1] == pieces[k];
      TrimmedPiecesHas(rest, k - 1, x);
    }
  }

  /** Blank text has only blank pieces, so the blank guard of `parseCSVList` changes no result. */
  lemma CsvPieces(csv: string)
    ensures ParseCsvList(csv) == TrimmedPieces(Split(csv, ','))
  {
    var pieces := Split(csv, ',');
    if IsBlank(csv) {
      forall k | 0 <= k < |pieces| ensures Trim(pieces[k]) == [] {
        forall i | 0 <= i < |pieces[k]| ensures pieces[k][i] <= ' ' {
          SplitChars(csv, ',', k, i);
        }
      }
      var r := TrimmedPieces(pieces);
      if r != [] {
        TrimmedPiecesMembers(pieces, r[0]);
      }
    }
  }

  /** The list of `a,b` is the list of `a` followed by the list of `b`, whatever `a` and `b` hold. */
  lemma ParseCsvConcat(a: string, b: string)
    ensures ParseCsvList(a + [','] + b) == ParseCsvList(a) + ParseCsvList(b)
  {
    CsvPieces(a + [','] + b);
    CsvPieces(a);
    CsvPieces(b);
    SplitAppend(a, b, ',');
    TrimmedPiecesAppend(Split(a, ','), Split(b, ','));
  }

  /** An item is in the list exactly when it is the non-empty trimmed text of a comma-separated piece. */
  lemma ParseCsvMembers(csv: string, x: string)
    ensures x in ParseCsvList(csv) <==>
      x != [] && exists k :: 0 <= k < |Split(csv, ',')| && Trim(Split(csv, ',')[k]) == x
  {
    CsvPieces(csv);
    TrimmedPiecesMembers(Split(csv, ','), x);
  }

  /** Text without a comma that is not blank is one item, trimmed. */
  lemma ParseCsvSingle(csv: string)
    requires ',' !in csv && !IsBlank(csv)
    ensures ParseCsvList(csv) == [Trim(csv)]
  {
    SplitLast(csv, ',');
  }

  // ------------------------------------------------------- the new entry

  /** The list fields of `createGameFromFields`: genres, platforms, translators. */
  method SetCredits(form: Form, game: Game)
    requires game.genres == game.platforms == game.translators == []
    modifies game
    ensures game.ToEntry() == old(game.ToEntry()).(
      genres := if IsBlank(form.genres) then [] else ParseCsvList(form.genres),
      platforms := if IsBlank(form.platforms) then [] else ParseCsvList(form.platforms),
      translators := if IsBlank(form.translators) then [] else ParseCsvList(form.translators))
  {
    if !IsBlank(form.genres) {
      game.SetGenres(Some(ParseCsvList(form.genres)));
    }
    if !IsBlank(form.platforms) {
      game.SetPlatforms(Some(ParseCsvList(form.platforms)));
    }
    if !IsBlank(form.translators) {
      game.SetTranslators(Some(ParseCsvList(form.translators)));
    }
  }

  /** The number fields of `createGameFromFields`: Steam ID and release year, parsed from the trimmed text. */
  method SetNumbers(form: Form, game: Game)
    requires game.steamId == game.releaseYear == None
    modifies game
    ensures game.ToEntry() == old(game.ToEntry()).(
      steamId := if IsBlank(form.steamId) then None else JavaParseInt(Trim(form.steamId)),
      releaseYear := if IsBlank(form.releaseYear) then None else JavaParseInt(Trim(form.releaseYear)))
  {
    if !IsBlank(form.steamId) {
      game.SetSteamId(JavaParseInt(Trim(form.steamId)));
    }
    if !IsBlank(form.releaseYear) {
      game.SetReleaseYear(JavaParseInt(Trim(form.releaseYear)));
    }
  }

  /** The remaining fields of `createGameFromFields`: language, rating, tags and description. */
  method SetDetails(form: Form, game: Game)
    requires game.language == game.rating == game.descrptionPath == None && game.tags == []
    modifies game
    ensures game.ToEntry() == old(game.ToEntry()).(
      language := if IsBlank(form.language) then None else Some(Trim(form.language)),
      rating := if IsBlank(form.rating) then None else Some(Trim(form.rating)),
      tags := if IsBlank(form.tags) then [] else ParseCsvList(form.tags),
      descriptionPath := if IsBlank(form.description) then None else Some(Trim(form.description)))
  {
    if !IsBlank(form.language) {
      game.SetLanguage(Some(Trim(form.language)));
    }
    if !IsBlank(form.rating) {
      game.SetRating(Some(Trim(form.rating)));
    }
    if !IsBlank(form.tags) {
      game.SetTags(Some(ParseCsvList(form.tags)));
    }
    if !IsBlank(form.description) {
      game.SetDescriptionPath(Some(Trim(form.description)));
    }
  }

  /**
   * `createGameFromFields`: title, developer and publisher trimmed; each
   * optional field set only when its text is not blank (lists through
   * `parseCSVList` of the untrimmed text, numbers parsed from the trimmed
   * text, language, rating and description trimmed). The cover image is set later.
   */
  method CreateGameFromFields(form: Form) returns (game: Game)
    requires OptionalInt(form.steamId) && OptionalInt(form.releaseYear)
    ensures fresh(game)
    ensures game.ToEntry() == Blank.(
      title := Some(Trim(form.title)),
      developer := Some(Trim(form.developer)),
      publisher := Some(Trim(form.publisher)),
      genres := if IsBlank(form.genres) then [] else ParseCsvList(form.genres),
      platforms := if IsBlank(form.platforms) then [] else ParseCsvList(form.platforms),
      translators := if IsBlank(form.translators) then [] else ParseCsvList(form.translators),
      steamId := if IsBlank(form.steamId) then None else JavaParseInt(Trim(form.steamId)),
      releaseYear := if IsBlank(form.releaseYear) then None else JavaParseInt(Trim(form.releaseYear)),
      language := if IsBlank(form.language) then None else Some(Trim(form.language)),
      rating := if IsBlank(form.rating) then None else Some(Trim(form.rating)),
      tags := if IsBlank(form.tags) then [] else ParseCsvList(form.tags),
      descriptionPath := if IsBlank(form.description) then None else Some(Trim(form.description)))
  {
    game := new Game.WithRequired(Some(Trim(form.title)), Some(Trim(form.developer)), Some(Trim(form.publisher)));
    SetCredits(form, game);
    SetNumbers(form, game);
    SetDetails(form, game);
  }

  // ------------------------------------------------------- file extension

  /** `getFileExtension`: from the last `.` to the end, or empty when there is none. */
  function FileExtension(filename: string): (r: string)
    ensures r == [] <==> '.' !in filename
    ensures r != [] ==> r[0] == '.' && '.' !in r[1..]
    ensures |r| <= |filename| && r == filename[|filename| - |r|..]
  {
    var i := LastIndexOf(filename, '.');
    if i == -1 then "" else filename[i..]
  }
}
